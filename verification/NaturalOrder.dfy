/**
 The natural order of section names, internal/mods/cfg.go:149-211.

 A name is cut into runs of digits and of other characters, digits without leading zeros and letters in lower case. Two
 names are compared chunk by chunk: digit runs by length and then character by character, which is by value, other runs
 character by character.
 */
module NaturalOrder {
  import opened Ascii
  import opened Decimal

  // ------------------------------------------------------------ lexicographic comparison

  /** a is before b from position i on. */
  predicate Before<T(==)>(a: seq<T>, b: seq<T>, i: nat, lt: (T, T) -> bool)
    requires i <= |a| && i <= |b|
    decreases |a| - i
  {
    if i == |b| then false
    else if i == |a| then true
    else if a[i] == b[i] then Before(a, b, i + 1, lt)
    else lt(a[i], b[i])
  }

  ghost predicate StrictTotal<T(!new)>(lt: (T, T) -> bool) {
    && (forall x :: !lt(x, x))
    && (forall x, y :: x == y || lt(x, y) || lt(y, x))
    && (forall x, y, z :: lt(x, y) && lt(y, z) ==> lt(x, z))
  }

  lemma {:induction false} BeforeIrreflexive<T(!new)>(a: seq<T>, i: nat, lt: (T, T) -> bool)
    requires i <= |a|
    ensures !Before(a, a, i, lt)
    decreases |a| - i
  {
    if i < |a| {
      BeforeIrreflexive(a, i + 1, lt);
    }
  }

  lemma {:induction false} BeforeTrichotomy<T(!new)>(a: seq<T>, b: seq<T>, i: nat, lt: (T, T) -> bool)
    requires StrictTotal(lt)
    requires i <= |a| && i <= |b| && a[..i] == b[..i]
    ensures a == b || Before(a, b, i, lt) || Before(b, a, i, lt)
    decreases |a| - i
  {
    if i < |a| && i < |b| && a[i] == b[i] {
      assert a[..i + 1] == a[..i] + [a[i]] && b[..i + 1] == b[..i] + [b[i]];
      BeforeTrichotomy(a, b, i + 1, lt);
    } else if i == |a| == |b| {
      assert a == a[..i] && b == b[..i];
    }
  }

  lemma {:induction false} BeforeTransitive<T(!new)>(a: seq<T>, b: seq<T>, c: seq<T>, i: nat, lt: (T, T) -> bool)
    requires StrictTotal(lt)
    requires i <= |a| && i <= |b| && i <= |c|
    requires Before(a, b, i, lt) && Before(b, c, i, lt)
    ensures Before(a, c, i, lt)
    decreases |a| - i
  {
    if i < |a| && a[i] == b[i] == c[i] {
      BeforeTransitive(a, b, c, i + 1, lt);
    }
  }

  /** Comparison does not look at what comes before the position it starts from. */
  lemma {:induction false} BeforeShift<T>(p: seq<T>, a: seq<T>, q: seq<T>, b: seq<T>, i: nat, lt: (T, T) -> bool)
    requires |p| == |q| && i <= |a| && i <= |b|
    ensures Before(p + a, q + b, |p| + i, lt) == Before(a, b, i, lt)
    decreases |a| - i
  {
    if i < |a| && i < |b| && a[i] == b[i] {
      BeforeShift(p, a, q, b, i + 1, lt);
    }
  }

  // ------------------------------------------------------------ digit runs

  predicate CharLess(x: char, y: char) {
    x < y
  }

  lemma CharOrder()
    ensures StrictTotal(CharLess)
  {
  }

  /** Digit strings of one length: the value decides as character order does. */
  lemma {:induction false} ValueIsLex(a: string, b: string, i: nat)
    requires AllDigits(a) && AllDigits(b) && i <= |a| == |b|
    ensures Before(a, b, i, CharLess) <==> Value(a, i) < Value(b, i)
    ensures a[i..] != b[i..] ==> Value(a, i) != Value(b, i)
    decreases |a| - i
  {
    if i < |a| {
      ValueIsLex(a, b, i + 1);
      var p := Pow10(|a| - i - 1);
      assert a[i..] == [a[i]] + a[i + 1..] && b[i..] == [b[i]] + b[i + 1..];
      if Digit(a[i]) < Digit(b[i]) {
        MulStep(Digit(a[i]), Digit(b[i]), p, Value(a, i + 1), Value(b, i + 1));
      } else if Digit(b[i]) < Digit(a[i]) {
        MulStep(Digit(b[i]), Digit(a[i]), p, Value(b, i + 1), Value(a, i + 1));
      }
    }
  }

  /** cfg.go:172-179: stripped runs compared by length, then character by character. */
  predicate RunLess(a: string, b: string) {
    if |TrimZeros(a)| != |TrimZeros(b)| then |TrimZeros(a)| < |TrimZeros(b)|
    else Before(TrimZeros(a), TrimZeros(b), 0, CharLess)
  }

  /** Comparing digit runs is comparing the numbers they denote, whatever their size. */
  lemma RunLessIsValueLess(a: string, b: string)
    requires AllDigits(a) && AllDigits(b)
    ensures RunLess(a, b) <==> Value(a, 0) < Value(b, 0)
    ensures TrimZeros(a) == TrimZeros(b) <==> Value(a, 0) == Value(b, 0)
  {
    TrimKeepsValue(a);
    TrimKeepsValue(b);
    var x, y := TrimZeros(a), TrimZeros(b);
    if |x| < |y| {
      LongerIsLarger(x, y);
    } else if |y| < |x| {
      LongerIsLarger(y, x);
    } else {
      ValueIsLex(x, y, 0);
      assert x[0..] == x && y[0..] == y;
    }
  }

  // ------------------------------------------------------------ chunk keys

  /** What naturalLess compares of one chunk. */
  datatype Chunk = Num(n: nat) | Txt(lower: string)

  predicate ChunkLess(x: Chunk, y: Chunk) {
    match (x, y)
    case (Num(m), Num(n)) => m < n
    case (Num(_), Txt(_)) => true
    case (Txt(_), Num(_)) => false
    case (Txt(s), Txt(t)) => Before(s, t, 0, CharLess)
  }

  lemma ChunkOrder()
    ensures StrictTotal(ChunkLess)
  {
    CharOrder();
    forall x: Chunk ensures !ChunkLess(x, x) {
      if x.Txt? {
        BeforeIrreflexive(x.lower, 0, CharLess);
      }
    }
    forall x: Chunk, y: Chunk ensures x == y || ChunkLess(x, y) || ChunkLess(y, x) {
      if x.Txt? && y.Txt? {
        BeforeTrichotomy(x.lower, y.lower, 0, CharLess);
      }
    }
    forall x: Chunk, y: Chunk, z: Chunk | ChunkLess(x, y) && ChunkLess(y, z) ensures ChunkLess(x, z) {
      if x.Txt? && y.Txt? && z.Txt? {
        BeforeTransitive(x.lower, y.lower, z.lower, 0, CharLess);
      }
    }
  }

  /** The end of the run of digits, or of other characters, that s starts with. */
  function RunEnd(s: string, digit: bool, i: nat): (j: nat)
    requires i <= |s| && forall k | 0 <= k < i :: IsDigit(s[k]) == digit
    ensures i <= j <= |s| && (forall k | 0 <= k < j :: IsDigit(s[k]) == digit) && (j < |s| ==> IsDigit(s[j]) != digit)
    decreases |s| - i
  {
    if i < |s| && IsDigit(s[i]) == digit then RunEnd(s, digit, i + 1) else i
  }

  function ChunkKey(chunk: string): Chunk {
    if AllDigits(chunk) then Num(Value(chunk, 0)) else Txt(ToLower(chunk))
  }

  /** The normalised chunk sequence of a name. */
  function Keys(s: string): seq<Chunk> {
    if s == "" then []
    else
      var n := RunEnd(s, IsDigit(s[0]), 1);
      [ChunkKey(s[..n])] + Keys(s[n..])
  }

  predicate KeysLess(a: seq<Chunk>, b: seq<Chunk>) {
    Before(a, b, 0, ChunkLess)
  }

  predicate NaturalBefore(a: string, b: string) {
    KeysLess(Keys(a), Keys(b))
  }

  // ------------------------------------------------------------ the code

  // cfg.go:192-199
  method NaturalChunk(s: string) returns (chunk: string, rest: string)
    requires s != ""
    ensures s == chunk + rest && chunk != "" && AllDigits(chunk) == IsDigit(s[0])
    ensures Keys(s) == [ChunkKey(chunk)] + Keys(rest)
  {
    var digit := IsDigit(s[0]);
    var i := 1;
    while i < |s| && IsDigit(s[i]) == digit
      invariant 1 <= i <= |s|
      invariant forall k | 0 <= k < i :: IsDigit(s[k]) == digit
      invariant RunEnd(s, digit, 1) == RunEnd(s, digit, i)
    {
      i := i + 1;
    }
    assert s[..i][0] == s[0];
    return s[..i], s[i..];
  }

  // cfg.go:161-189
  method NaturalLess(a0: string, b0: string) returns (less: bool)
    ensures less == NaturalBefore(a0, b0)
  {
    var a, b := a0, b0;
    while a != "" && b != ""
      invariant KeysLess(Keys(a), Keys(b)) == NaturalBefore(a0, b0)
      decreases |a|
    {
      var ca, ra := NaturalChunk(a);
      var cb, rb := NaturalChunk(b);
      FirstChunk(ca, Keys(ra), cb, Keys(rb));
      a, b := ra, rb;
      if ca != cb {
        var da, db := AllDigits(ca), AllDigits(cb);
        if da && db {
          RunLessIsValueLess(ca, cb);
          var ta, tb := TrimZeros(ca), TrimZeros(cb);
          if |ta| != |tb| {
            return |ta| < |tb|;
          }
          if ta != tb {
            return Before(ta, tb, 0, CharLess);
          }
        } else if da != db {
          return da;
        } else {
          var la, lb := ToLower(ca), ToLower(cb);
          if la != lb {
            return Before(la, lb, 0, CharLess);
          }
        }
      }
    }
    less := |a| < |b|;
  }

  lemma FirstChunk(ca: string, ka: seq<Chunk>, cb: string, kb: seq<Chunk>)
    ensures KeysLess([ChunkKey(ca)] + ka, [ChunkKey(cb)] + kb)
         == if ChunkKey(ca) == ChunkKey(cb) then KeysLess(ka, kb) else ChunkLess(ChunkKey(ca), ChunkKey(cb))
  {
    BeforeShift([ChunkKey(ca)], ka, [ChunkKey(cb)], kb, 0, ChunkLess);
  }

  // ------------------------------------------------------------ order laws

  /** A strict weak order whose ties are exactly the names with one chunk sequence. */
  lemma StrictWeak(a: string, b: string, c: string)
    ensures !NaturalBefore(a, a)
    ensures NaturalBefore(a, b) && NaturalBefore(b, c) ==> NaturalBefore(a, c)
    ensures !NaturalBefore(a, b) && !NaturalBefore(b, a) <==> Keys(a) == Keys(b)
  {
    ChunkOrder();
    BeforeIrreflexive(Keys(a), 0, ChunkLess);
    BeforeTrichotomy(Keys(a), Keys(b), 0, ChunkLess);
    if NaturalBefore(a, b) && NaturalBefore(b, c) {
      BeforeTransitive(Keys(a), Keys(b), Keys(c), 0, ChunkLess);
    }
  }
}
