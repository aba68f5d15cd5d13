/** The bounded search for the line a YAML parser fails at, internal/mods/cfg.go:277-362. */
module YamlLocator {
  import opened LineCut

  const MAX_LOCATE_BYTES := 256 * 1024
  const LOCATE_AHEAD := 20
  const LOCATE_ROUNDS := 2

  datatype Location = ParserPosition | NearLine(line: nat)

  // ------------------------------------------------------------ lines of a text

  /** The offsets just after each newline, and 0. */
  function NewlineEnds(raw: string): (ends: seq<nat>)
    ensures ends != [] && forall n | 0 <= n < |ends| :: ends[n] <= |raw|
  {
    if raw == "" then [0]
    else NewlineEnds(raw[..|raw| - 1]) + (if raw[|raw| - 1] == '\n' then [|raw|] else [])
  }

  /** The offsets just after each line, the unfinished last one included. */
  function Ends(raw: string): (ends: seq<nat>)
    ensures ends != [] && forall n | 0 <= n < |ends| :: ends[n] <= |raw|
  {
    var ends := NewlineEnds(raw);
    if ends[|ends| - 1] != |raw| then ends + [|raw|] else ends
  }

  function LineCount(raw: string): nat {
    |Ends(raw)| - 1
  }

  /** The first n lines, with their newlines. */
  function FirstLines(raw: string, n: nat): string
    requires n <= LineCount(raw)
  {
    raw[..Ends(raw)[n]]
  }

  predicate Parses(parse: string -> bool, raw: string, n: nat)
    requires n <= LineCount(raw)
  {
    parse(FirstLines(raw, n))
  }

  lemma {:induction false} EndsCount(raw: string)
    ensures |NewlineEnds(raw)| == |RawLines(raw)| + 1 && NewlineEnds(raw)[0] == 0
    ensures NewlineEnds(raw)[|RawLines(raw)|] + |Rest(raw)| == |raw|
  {
    if raw != "" {
      EndsCount(raw[..|raw| - 1]);
    }
  }

  lemma FirstAndLast(raw: string)
    ensures FirstLines(raw, 0) == "" && FirstLines(raw, LineCount(raw)) == raw
    ensures LineCount(raw) == |RawLines(raw)| + if Rest(raw) == "" then 0 else 1
  {
    EndsCount(raw);
  }

  /** n lines are n lines: cutting them again gives the first n. */
  lemma {:induction false} FirstLinesCut(raw: string, n: nat)
    requires n < |NewlineEnds(raw)|
    ensures |NewlineEnds(raw)| == |RawLines(raw)| + 1
    ensures RawLines(raw[..NewlineEnds(raw)[n]]) == RawLines(raw)[..n] && Rest(raw[..NewlineEnds(raw)[n]]) == ""
  {
    EndsCount(raw);
    if raw != "" {
      var front := raw[..|raw| - 1];
      EndsCount(front);
      if n < |NewlineEnds(front)| {
        FirstLinesCut(front, n);
        assert front[..NewlineEnds(front)[n]] == raw[..NewlineEnds(front)[n]];
      } else {
        assert raw[..|raw|] == raw;
      }
    }
  }

  // cfg.go:325-333
  method LineEnds(raw: string) returns (ends: seq<nat>)
    ensures ends == Ends(raw)
  {
    ends := [0];
    for i := 0 to |raw|
      invariant ends == NewlineEnds(raw[..i])
    {
      assert raw[..i + 1][..i] == raw[..i];
      if raw[i] == '\n' {
        ends := ends + [i + 1];
      }
    }
    assert raw[..|raw|] == raw;
    if ends[|ends| - 1] != |raw| {
      ends := ends + [|raw|];
    }
  }

  // ------------------------------------------------------------ the cost of bisection

  /** The least k with n <= 2^k. */
  function CeilLog2(n: nat): nat {
    if n <= 1 then 0 else 1 + CeilLog2((n + 1) / 2)
  }

  function Pow2(k: nat): nat {
    if k == 0 then 1 else 2 * Pow2(k - 1)
  }

  lemma {:induction false} CeilLog2Is(n: nat)
    requires n >= 1
    ensures n <= Pow2(CeilLog2(n))
    ensures CeilLog2(n) > 0 ==> Pow2(CeilLog2(n) - 1) < n
  {
    if n > 1 {
      CeilLog2Is((n + 1) / 2);
    }
  }

  lemma {:induction false} CeilLog2Grows(m: nat, n: nat)
    requires m <= n
    ensures CeilLog2(m) <= CeilLog2(n)
  {
    if m > 1 {
      CeilLog2Grows((m + 1) / 2, (n + 1) / 2);
    }
  }

  // ------------------------------------------------------------ the code

  // cfg.go:335-346
  method Bisect(parse: string -> bool, raw: string, ends: seq<nat>, lo0: nat, hi0: nat)
    returns (lo: nat, hi: nat, ghost calls: nat)
    requires lo0 <= hi0 < |ends| && ends == Ends(raw)
    ensures lo0 <= lo <= hi <= hi0 && (lo0 < hi0 ==> hi == lo + 1)
    ensures Parses(parse, raw, lo0) ==> Parses(parse, raw, lo)
    ensures !Parses(parse, raw, hi0) ==> !Parses(parse, raw, hi)
    ensures calls <= CeilLog2(hi0 - lo0)
  {
    lo, hi, calls := lo0, hi0, 0;
    while hi - lo > 1
      invariant lo0 <= lo <= hi <= hi0 && (lo0 < hi0 ==> lo < hi)
      invariant Parses(parse, raw, lo0) ==> Parses(parse, raw, lo)
      invariant !Parses(parse, raw, hi0) ==> !Parses(parse, raw, hi)
      invariant calls + CeilLog2(hi - lo) <= CeilLog2(hi0 - lo0)
    {
      var mid := lo + (hi - lo) / 2;
      CeilLog2Grows((hi - lo) / 2, (hi - lo + 1) / 2);
      calls := calls + 1;
      if parse(raw[..ends[mid]]) {
        lo := mid;
      } else {
        hi := mid;
      }
    }
  }

  /** None of the 20 runs of lines looked at from lo on parses. */
  ghost predicate NothingAhead(parse: string -> bool, raw: string, lo: nat) {
    forall m | lo + 2 <= m <= lo + 21 && m < LineCount(raw) :: !Parses(parse, raw, m)
  }

  /** The first of them that parses is the first m lines. */
  ghost predicate NextGood(parse: string -> bool, raw: string, lo: nat, m: nat) {
    && lo + 2 <= m <= lo + 21 && m < LineCount(raw) && Parses(parse, raw, m)
    && forall k | lo + 2 <= k < m :: !Parses(parse, raw, k)
  }

  // cfg.go:350-356
  method LookAhead(parse: string -> bool, raw: string, ends: seq<nat>, lo: nat)
    returns (found: nat, ghost calls: nat)
    requires lo < |ends| && ends == Ends(raw)
    ensures calls <= LOCATE_AHEAD
    ensures found != 0 ==> NextGood(parse, raw, lo, found)
    ensures found == 0 ==> NothingAhead(parse, raw, lo)
  {
    var total := |ends| - 1;
    var m := lo + 2;
    found, calls := 0, 0;
    while m < total && m <= lo + 1 + LOCATE_AHEAD
      invariant lo + 2 <= m <= lo + 2 + LOCATE_AHEAD && calls == m - lo - 2
      invariant forall k | lo + 2 <= k < m && k < total :: !Parses(parse, raw, k)
    {
      calls := calls + 1;
      if parse(raw[..ends[m]]) {
        return m, calls;
      }
      m := m + 1;
    }
  }

  /** What the reported line means: everything before it parses, and with it nothing does. */
  ghost predicate IsBoundary(parse: string -> bool, raw: string, line: nat) {
    1 <= line <= LineCount(raw) && Parses(parse, raw, line - 1) && !Parses(parse, raw, line)
  }

  /** The search passed on from boundary lo to a later one, beyond the next lines that parse. */
  ghost predicate Jumps(parse: string -> bool, raw: string, lo: nat, next: nat) {
    exists m: nat :: NextGood(parse, raw, lo, m) && m <= next
  }

  ghost predicate Follow(parse: string -> bool, raw: string, trail: seq<nat>) {
    forall i | 1 <= i < |trail| :: Jumps(parse, raw, trail[i - 1], trail[i])
  }

  /** Each is the number of lines before a boundary, if the empty text parses and the whole does not. */
  ghost predicate AreBoundaries(parse: string -> bool, raw: string, trail: seq<nat>) {
    parse("") && !parse(raw) ==> forall lo | lo in trail :: IsBoundary(parse, raw, lo + 1)
  }

  /** Before a bisection from `from` on, with the boundaries passed so far. */
  ghost predicate Searching(parse: string -> bool, raw: string, trail: seq<nat>, from: nat) {
    && from <= LineCount(raw) && (LineCount(raw) > 0 ==> from < LineCount(raw))
    && Follow(parse, raw, trail) && AreBoundaries(parse, raw, trail)
    && (parse("") ==> Parses(parse, raw, from))
    && (trail != [] ==> NextGood(parse, raw, trail[|trail| - 1], from))
  }

  /** A bisection ended between lo and the line after it. */
  ghost predicate IsCut(parse: string -> bool, raw: string, from: nat, lo: nat, hi: nat) {
    && from <= lo <= hi <= LineCount(raw) && (from < LineCount(raw) ==> hi == lo + 1)
    && (Parses(parse, raw, from) ==> Parses(parse, raw, lo))
    && (!parse(raw) ==> !Parses(parse, raw, hi))
  }

  lemma CutIsBoundary(parse: string -> bool, raw: string, from: nat, lo: nat, hi: nat)
    requires from <= LineCount(raw) && (LineCount(raw) > 0 ==> from < LineCount(raw)) && IsCut(parse, raw, from, lo, hi)
    requires parse("") && !parse(raw) && Parses(parse, raw, from)
    ensures IsBoundary(parse, raw, lo + 1)
  {
    FirstAndLast(raw);
  }

  lemma TrailGrows(parse: string -> bool, raw: string, trail: seq<nat>, from: nat, lo: nat, hi: nat)
    requires Searching(parse, raw, trail, from) && IsCut(parse, raw, from, lo, hi)
    ensures Follow(parse, raw, trail + [lo]) && AreBoundaries(parse, raw, trail + [lo])
  {
    if parse("") && !parse(raw) {
      CutIsBoundary(parse, raw, from, lo, hi);
    }
    if trail != [] {
      assert Jumps(parse, raw, trail[|trail| - 1], lo);
    }
  }

  /** Where the bisections ended: each jump led on, at most two of them, and after fewer nothing ahead parses. */
  ghost predicate IsTrail(parse: string -> bool, raw: string, trail: seq<nat>) {
    && 1 <= |trail| <= 3
    && Follow(parse, raw, trail)
    && (|trail| < 3 ==> NothingAhead(parse, raw, trail[|trail| - 1]))
  }

  // cfg.go:316-362
  method Locate(parse: string -> bool, raw: string) returns (r: Location, ghost calls: nat, ghost trail: seq<nat>)
    ensures r == ParserPosition <==> |raw| > 256 * 1024
    ensures r.NearLine? ==> IsTrail(parse, raw, trail) && r.line == trail[|trail| - 1] + 1
    ensures AreBoundaries(parse, raw, trail)
    ensures calls <= 3 * CeilLog2(LineCount(raw)) + 2 * 20
  {
    trail := [];
    if |raw| > MAX_LOCATE_BYTES {
      return ParserPosition, 0, [];
    }
    var ends := LineEnds(raw);
    FirstAndLast(raw);
    var total := |ends| - 1;
    var from: nat, lo: nat := 0, 0;
    calls := 0;
    var round := 0;
    while true
      invariant |trail| == round <= LOCATE_ROUNDS && Searching(parse, raw, trail, from)
      invariant calls <= Budget(round, CeilLog2(total))
      decreases LOCATE_ROUNDS - round
    {
      assert round == 2 ==> Budget(1, CeilLog2(total)) == CeilLog2(total) + LOCATE_AHEAD;
      var hi;
      ghost var spent;
      CeilLog2Grows(total - from, total);
      lo, hi, spent := Bisect(parse, raw, ends, from, total);
      TrailGrows(parse, raw, trail, from, lo, hi);
      calls, trail := calls + spent, trail + [lo];
      if round >= LOCATE_ROUNDS {
        break;
      }
      var found;
      found, spent := LookAhead(parse, raw, ends, lo);
      calls := calls + spent;
      if found == 0 {
        break;
      }
      from := found;
      round := round + 1;
    }
    r := NearLine(lo + 1);
  }

  /** The price of a round is that of one bisection and one look ahead. */
  function Budget(rounds: nat, log: nat): nat {
    if rounds == 0 then 0 else Budget(rounds - 1, log) + log + LOCATE_AHEAD
  }

  // ------------------------------------------------------------ when cutting a construct never hides an error

  /** The parser fails for good: no longer run of lines parses once one does not. */
  ghost predicate FailsForGood(parse: string -> bool, raw: string) {
    forall m, n | 0 <= m <= n <= LineCount(raw) && !Parses(parse, raw, m) :: !Parses(parse, raw, n)
  }

  /** Then there is one boundary only, the first line that does not parse. */
  lemma BoundaryIsFirst(parse: string -> bool, raw: string, line: nat, n: nat)
    requires FailsForGood(parse, raw) && IsBoundary(parse, raw, line) && n <= LineCount(raw)
    ensures Parses(parse, raw, n) <==> n < line
    ensures IsBoundary(parse, raw, n) <==> n == line
  {
  }
}
