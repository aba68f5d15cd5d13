/** What natural order does with names as they are written: internal/mods/cfg.go:149-211. */
module NaturalText {
  import opened Ascii
  import opened Decimal
  import opened DecimalText
  import opened NaturalOrder

  /** a and b agree up to some place, where a ends or has the smaller element. */
  ghost predicate Lexicographic<T(!new)>(a: seq<T>, b: seq<T>, i: nat, lt: (T, T) -> bool) {
    exists k :: i <= k && DiffersAt(a, b, i, k, lt)
  }

  predicate DiffersAt<T(==)>(a: seq<T>, b: seq<T>, i: nat, k: nat, lt: (T, T) -> bool) {
    && i <= k <= |a| && k < |b| && a[i..k] == b[i..k]
    && (k == |a| || (a[k] != b[k] && lt(a[k], b[k])))
  }

  lemma {:induction false} BeforeIsLexicographic<T(!new)>(a: seq<T>, b: seq<T>, i: nat, lt: (T, T) -> bool)
    requires i <= |a| && i <= |b|
    ensures Before(a, b, i, lt) <==> Lexicographic(a, b, i, lt)
    decreases |a| - i
  {
    if i < |a| && i < |b| && a[i] == b[i] {
      BeforeIsLexicographic(a, b, i + 1, lt);
      if k :| i <= k && DiffersAt(a, b, i, k, lt) {
        DiffersLater(a, b, i, k, lt);
        assert DiffersAt(a, b, i + 1, k, lt);
      }
      if Lexicographic(a, b, i + 1, lt) {
        var j := i + 1;
        var k :| j <= k && DiffersAt(a, b, j, k, lt);
        DiffersLater(a, b, i, k, lt);
        assert DiffersAt(a, b, i, k, lt);
      }
    } else {
      NowOrNever(a, b, i, lt);
    }
  }

  lemma DiffersLater<T>(a: seq<T>, b: seq<T>, i: nat, k: nat, lt: (T, T) -> bool)
    requires i < |a| && i < |b| && a[i] == b[i]
    ensures DiffersAt(a, b, i, k, lt) <==> i < k && DiffersAt(a, b, i + 1, k, lt)
  {
    if i < k <= |a| && k < |b| {
      assert a[i..k] == [a[i]] + a[i + 1..k] && b[i..k] == [b[i]] + b[i + 1..k];
    }
  }

  lemma NowOrNever<T(!new)>(a: seq<T>, b: seq<T>, i: nat, lt: (T, T) -> bool)
    requires i <= |a| && i <= |b| && !(i < |a| && i < |b| && a[i] == b[i])
    ensures Lexicographic(a, b, i, lt) <==> i < |b| && (i == |a| || lt(a[i], b[i]))
  {
    if i < |b| && (i == |a| || lt(a[i], b[i])) {
      assert DiffersAt(a, b, i, i, lt);
    }
    forall k | i < k ensures !DiffersAt(a, b, i, k, lt) {
      if k <= |a| && k < |b| {
        assert a[i..k][0] == a[i] && b[i..k][0] == b[i];
      }
    }
  }

  // ------------------------------------------------------------ runs of characters

  lemma {:induction false} RunEndAt(run: string, s: string, digit: bool, i: nat)
    requires i <= |run| && (forall k | 0 <= k < |run| :: IsDigit(run[k]) == digit)
    requires s == "" || IsDigit(s[0]) != digit
    requires forall k | 0 <= k < i :: IsDigit((run + s)[k]) == digit
    ensures RunEnd(run + s, digit, i) == |run|
    decreases |run| - i
  {
    if i < |run| {
      assert (run + s)[i] == run[i];
      RunEndAt(run, s, digit, i + 1);
    }
  }

  predicate IsRun(run: string, digit: bool) {
    run != "" && forall k | 0 <= k < |run| :: IsDigit(run[k]) == digit
  }

  predicate Other(s: string, digit: bool) {
    s == "" || IsDigit(s[0]) != digit
  }

  /** A run of digits, or of other characters, with something else after it, is a chunk of its own. */
  lemma RunIsChunk(run: string, s: string, digit: bool)
    requires IsRun(run, digit) && Other(s, digit)
    ensures Keys(run + s) == [ChunkKey(run)] + Keys(s)
  {
    RunEndAt(run, s, digit, 1);
    assert (run + s)[0] == run[0] && (run + s)[..|run|] == run && (run + s)[|run|..] == s;
  }

  /** Every name is a run and what comes after it. */
  lemma FirstRun(p: string) returns (run: string, rest: string, digit: bool)
    requires p != ""
    ensures p == run + rest && IsRun(run, digit) && Other(rest, digit)
  {
    digit := IsDigit(p[0]);
    var n := RunEnd(p, digit, 1);
    run, rest := p[..n], p[n..];
  }

  predicate Changes(p: string, s: string) {
    p == "" || s == "" || IsDigit(p[|p| - 1]) != IsDigit(s[0])
  }

  /** Chunks do not run over a change from digits to other characters or back. */
  lemma {:induction false} KeysAppend(p: string, s: string)
    requires Changes(p, s)
    ensures Appends(p, s)
    decreases |p|
  {
    if p == "" {
      NothingAppends(s);
    } else {
      var run, rest, digit := FirstRun(p);
      ChangesLater(run, rest, s, digit);
      KeysAppend(rest, s);
      AppendRun(run, rest, s, digit);
    }
  }

  predicate Appends(p: string, s: string) {
    Keys(p + s) == Keys(p) + Keys(s)
  }

  lemma NothingAppends(s: string)
    ensures Appends("", s)
  {
    assert "" + s == s;
  }

  lemma ChangesLater(run: string, rest: string, s: string, digit: bool)
    requires IsRun(run, digit) && Other(rest, digit) && Changes(run + rest, s)
    ensures Changes(rest, s) && Other(rest + s, digit)
  {
    if rest == "" {
      assert run + rest == run && rest + s == s;
    } else {
      assert (run + rest)[|run + rest| - 1] == rest[|rest| - 1];
    }
  }

  lemma AppendRun(run: string, rest: string, s: string, digit: bool)
    requires IsRun(run, digit) && Other(rest, digit) && Other(rest + s, digit) && Appends(rest, s)
    ensures Appends(run + rest, s)
  {
    RunIsChunk(run, rest + s, digit);
    RunIsChunk(run, rest, digit);
    Regroup(run, rest, s);
    Regroup([ChunkKey(run)], Keys(rest), Keys(s));
  }

  lemma Regroup<T>(a: seq<T>, b: seq<T>, c: seq<T>)
    ensures a + (b + c) == a + b + c
  {
  }

  // ------------------------------------------------------------ numbers

  /** A number with zeros in front is one chunk, for its value. */
  lemma NumberChunk(z: nat, n: nat, tail: string)
    requires tail == "" || !('0' <= tail[0] <= '9')
    ensures Keys(Zeros(z) + Printed(n) + tail) == [Num(n)] + Keys(tail)
  {
    PrintedWithTail(z, n, tail);
    PrintedIs(n);
    RunIsChunk(Zeros(z) + Printed(n), tail, true);
  }

  /** After the same beginning the smaller number comes first, whatever follows and however many zeros are in front. */
  lemma SmallerNumberFirst(p: string, y: nat, m: nat, q: string, z: nat, n: nat, r: string)
    requires (p == "" || !('0' <= p[|p| - 1] <= '9')) && (q == "" || !('0' <= q[0] <= '9')) && (r == "" || !('0' <= r[0] <= '9'))
    requires m < n
    ensures NaturalBefore(p + (Zeros(y) + Printed(m) + q), p + (Zeros(z) + Printed(n) + r))
  {
    NumberAfter(p, y, m, q);
    NumberAfter(p, z, n, r);
    NumberDecides(Keys(p), m, Keys(q), n, Keys(r));
  }

  lemma NumberAfter(p: string, z: nat, n: nat, tail: string)
    requires (p == "" || !('0' <= p[|p| - 1] <= '9')) && (tail == "" || !('0' <= tail[0] <= '9'))
    ensures Keys(p + (Zeros(z) + Printed(n) + tail)) == Keys(p) + ([Num(n)] + Keys(tail))
  {
    NumberChunk(z, n, tail);
    BeginsWithDigit(z, n, tail);
    KeysAppend(p, Zeros(z) + Printed(n) + tail);
  }

  lemma NumberDecides(p: seq<Chunk>, m: nat, u: seq<Chunk>, n: nat, v: seq<Chunk>)
    requires m < n
    ensures KeysLess(p + ([Num(m)] + u), p + ([Num(n)] + v))
  {
    AgreeUpTo(p, [Num(m)] + u, [Num(n)] + v, 0);
    assert (p + ([Num(m)] + u))[|p|] == Num(m) && (p + ([Num(n)] + v))[|p|] == Num(n);
  }

  lemma BeginsWithDigit(z: nat, n: nat, tail: string)
    ensures var s := Zeros(z) + Printed(n) + tail; s != "" && IsDigit(s[0])
  {
    PrintedIs(n);
  }

  /** A common beginning does not decide. */
  lemma {:induction false} AgreeUpTo(p: seq<Chunk>, a: seq<Chunk>, b: seq<Chunk>, i: nat)
    requires i <= |p|
    ensures Before(p + a, p + b, i, ChunkLess) == Before(p + a, p + b, |p|, ChunkLess)
    decreases |p| - i
  {
    if i < |p| {
      assert (p + a)[i] == p[i] && (p + b)[i] == p[i];
      AgreeUpTo(p, a, b, i + 1);
    }
  }

  /** A name that begins with a digit comes before one that begins with anything else. */
  lemma NumberBeforeText(a: string, b: string)
    requires a != "" && b != "" && '0' <= a[0] <= '9' && !('0' <= b[0] <= '9')
    ensures NaturalBefore(a, b)
  {
    var n, k := RunEnd(a, true, 1), RunEnd(b, false, 1);
    assert AllDigits(a[..n]) && !IsDigit(b[..k][0]);
    assert Keys(a)[0].Num? && Keys(b)[0].Txt?;
  }

  // ------------------------------------------------------------ text

  /** Names without digits compare character by character in lower case. */
  lemma TextInOrder(a: string, b: string)
    requires a != "" && b != "" && forall c | c in a + b :: !('0' <= c <= '9')
    ensures NaturalBefore(a, b) <==> Lexicographic(ToLower(a), ToLower(b), 0, CharLess)
  {
    assert forall k | 0 <= k < |a| :: a[k] in a + b;
    assert forall k | 0 <= k < |b| :: b[k] in a + b;
    RunIsChunk(a, "", false);
    RunIsChunk(b, "", false);
    assert a + "" == a && b + "" == b && !AllDigits(a) && !AllDigits(b);
    BeforeIsLexicographic(ToLower(a), ToLower(b), 0, CharLess);
    CharOrder();
    BeforeIrreflexive(ToLower(a), 0, CharLess);
    FirstChunk(a, [], b, []);
    assert Keys(a) == [ChunkKey(a)] + [] && Keys(b) == [ChunkKey(b)] + [];
  }

  /** Letter case does not matter. */
  lemma {:induction false} CaseDoesNotMatter(a: string, b: string)
    requires ToLower(a) == ToLower(b)
    ensures Keys(a) == Keys(b)
    decreases |a|
  {
    if a != "" {
      SameClass(a, b);
      var digit := IsDigit(a[0]);
      var n := RunEnd(a, digit, 1);
      RunEndAt(b[..n], b[n..], digit, 1);
      assert b == b[..n] + b[n..];
      LowerCut(a, b, n);
      CaseDoesNotMatter(a[n..], b[n..]);
      SameChunk(a[..n], b[..n], digit);
    }
  }

  lemma SameClass(a: string, b: string)
    requires ToLower(a) == ToLower(b)
    ensures |a| == |b| && forall k | 0 <= k < |a| :: (IsDigit(a[k]) <==> IsDigit(b[k])) && (IsDigit(a[k]) ==> a[k] == b[k])
  {
    assert forall k | 0 <= k < |a| :: Lower(a[k]) == ToLower(a)[k] == ToLower(b)[k] == Lower(b[k]);
  }

  lemma LowerCut(a: string, b: string, n: nat)
    requires ToLower(a) == ToLower(b) && n <= |a|
    ensures |a| == |b| && ToLower(a[..n]) == ToLower(b[..n]) && ToLower(a[n..]) == ToLower(b[n..])
  {
    assert forall k | 0 <= k < |a| :: Lower(a[k]) == ToLower(a)[k] == ToLower(b)[k] == Lower(b[k]);
  }

  lemma SameChunk(a: string, b: string, digit: bool)
    requires ToLower(a) == ToLower(b) && a != "" && forall k | 0 <= k < |a| :: IsDigit(a[k]) == digit
    ensures ChunkKey(a) == ChunkKey(b)
  {
    SameClass(a, b);
    if digit {
      assert a == b;
    } else {
      assert !IsDigit(a[0]) && !IsDigit(b[0]);
    }
  }
}
