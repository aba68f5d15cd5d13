/** Versions as they are written: numbers between dots compare number by number, internal/mods/resolver.go:30-72. */
module VersionText {
  import opened Ascii
  import opened Decimal
  import opened DecimalText
  import opened Versions

  /** A part that begins with a number counts as it, with whatever zeros and text around, unless it is beyond an int. */
  lemma PartIsItsNumber(z: nat, n: nat, tail: string)
    requires tail == "" || !('0' <= tail[0] <= '9')
    ensures NumericPrefix(Zeros(z) + Printed(n) + tail) == if n <= 0x7FFF_FFFF_FFFF_FFFF then n else 0
  {
    PrintedWithTail(z, n, tail);
  }

  /** A part that does not begin with a digit counts as 0. */
  lemma PartWithoutNumber(s: string)
    requires s == "" || !('0' <= s[0] <= '9')
    ensures NumericPrefix(s) == 0
  {
    assert s[..0] == "";
  }

  /** There are no other parts. */
  lemma EveryPart(s: string) returns (z: nat, n: nat, tail: string)
    requires s != "" && '0' <= s[0] <= '9'
    ensures s == Zeros(z) + Printed(n) + tail && (tail == "" || !('0' <= tail[0] <= '9'))
  {
    var end := DigitsEnd(s, 0);
    tail := s[end..];
    assert end > 0;
    z, n := DigitsArePrinted(s[..end]);
    assert s == s[..end] + tail;
  }

  // ------------------------------------------------------------ whole versions

  function AllPrinted(ns: seq<nat>): (r: seq<string>)
    ensures |r| == |ns|
  {
    seq(|ns|, i requires 0 <= i < |ns| => Printed(ns[i]))
  }

  /** Numbers written with dots between them. */
  function Dotted(ns: seq<nat>): string {
    JoinOn(AllPrinted(ns), '.')
  }

  /** The i-th number; numbers that are not there are 0. */
  function At(ns: seq<nat>, i: nat): nat {
    if i < |ns| then ns[i] else 0
  }

  ghost predicate Ints(ns: seq<nat>) {
    ns != [] && forall n | n in ns :: n <= 0x7FFF_FFFF_FFFF_FFFF
  }

  lemma PrintedHasNoDot(n: nat)
    ensures '.' !in Printed(n)
  {
    PrintedIs(n);
  }

  lemma DottedParts(ns: seq<nat>)
    requires ns != []
    ensures SplitOn(Dotted(ns), '.') == AllPrinted(ns)
  {
    forall p | p in AllPrinted(ns) ensures '.' !in p {
      var i :| 0 <= i < |ns| && p == Printed(ns[i]);
      PrintedHasNoDot(ns[i]);
    }
    SplitOfJoin(AllPrinted(ns), '.');
  }

  lemma DottedPart(ns: seq<nat>, i: nat)
    requires Ints(ns)
    ensures Part(Dotted(ns), i) == At(ns, i)
  {
    DottedParts(ns);
    if i < |ns| {
      assert ns[i] in ns && Zeros(0) + Printed(ns[i]) + "" == Printed(ns[i]);
      PartIsItsNumber(0, ns[i], "");
    }
  }

  /** The first number where they differ is smaller in a. */
  ghost predicate LexLess(a: seq<nat>, b: seq<nat>) {
    exists n: nat :: LessAt(a, b, n)
  }

  ghost predicate LessAt(a: seq<nat>, b: seq<nat>, n: nat) {
    At(a, n) < At(b, n) && forall i: nat | i < n :: At(a, i) == At(b, i)
  }

  lemma OlderIsLess(a: seq<nat>, b: seq<nat>)
    requires Ints(a) && Ints(b)
    ensures Older(Dotted(a), Dotted(b)) <==> LexLess(a, b)
  {
    forall i: nat ensures Part(Dotted(a), i) == At(a, i) && Part(Dotted(b), i) == At(b, i) {
      DottedPart(a, i);
      DottedPart(b, i);
    }
    if n: nat :| LessAt(a, b, n) {
      assert AgreeBelow(Dotted(a), Dotted(b), n);
    }
    if n: nat :| AgreeBelow(Dotted(a), Dotted(b), n) && Part(Dotted(a), n) < Part(Dotted(b), n) {
      assert LessAt(a, b, n);
    }
  }

  /** Written versions compare as their numbers do, one by one. */
  lemma ComparesNumbers(a: seq<nat>, b: seq<nat>)
    requires Ints(a) && Ints(b)
    ensures Compare(Dotted(a), Dotted(b)) < 0 <==> LexLess(a, b)
    ensures Compare(Dotted(a), Dotted(b)) > 0 <==> LexLess(b, a)
    ensures Compare(Dotted(a), Dotted(b)) == 0 <==> forall i: nat :: At(a, i) == At(b, i)
  {
    CompareMeans(Dotted(a), Dotted(b));
    OlderIsLess(a, b);
    OlderIsLess(b, a);
    forall i: nat ensures Part(Dotted(a), i) == At(a, i) && Part(Dotted(b), i) == At(b, i) {
      DottedPart(a, i);
      DottedPart(b, i);
    }
  }
}
