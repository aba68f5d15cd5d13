/**
 Searching an instance's log files, newest first: searchLogFiles and searchOneFile of
 internal/instance/fs.go. The line matcher (substring or regular expression) is a parameter.
 */
module LogSearch {
  import opened LineBytes
  import opened LineCut

  const SCAN_BUFFER: nat := 1_048_576

  datatype LogFile = LogFile(name: string, content: Content)

  /** A rotated log may be pruned between listing and opening. */
  datatype Content = Missing | Unreadable | Bytes(data: string)

  datatype Match = Match(file: string, line: string)

  datatype Result = Ok(matches: seq<Match>) | EmptyQuery | Failed

  // ------------------------------------------------------------ specification

  /** The tokens of a bufio.Scanner: complete lines, then an unterminated last one unless it is empty. */
  function ScanLines(data: string): seq<string> {
    ChompAll(RawLines(data)) + (if Rest(data) == "" then [] else [Chomp(Rest(data))])
  }

  /** The scanner gives up when a line does not fit its buffer together with its newline. */
  ghost predicate Scannable(data: string) {
    |Rest(data)| < SCAN_BUFFER && forall line | line in RawLines(data) :: |line| < SCAN_BUFFER
  }

  function Filter(lines: seq<string>, matches: string -> bool): seq<string> {
    if lines == [] then []
    else
      var front, last := Filter(lines[..|lines| - 1], matches), lines[|lines| - 1];
      if matches(last) then front + [last] else front
  }

  /** Newest first. */
  function Newest(name: string, lines: seq<string>): (r: seq<Match>)
    ensures |r| == |lines|
  {
    seq(|lines|, k requires 0 <= k < |lines| => Match(name, lines[|lines| - 1 - k]))
  }

  /** All matches of one file, newest first. */
  function MatchesIn(f: LogFile, matches: string -> bool): seq<Match> {
    if f.content.Bytes? then Newest(f.name, Filter(ScanLines(f.content.data), matches)) else []
  }

  /** The matches of each file. */
  function PerFile(files: seq<LogFile>, matches: string -> bool): (r: seq<seq<Match>>)
    ensures |r| == |files|
  {
    seq(|files|, k requires 0 <= k < |files| => MatchesIn(files[k], matches))
  }

  /** The first n parts, one after another. */
  function Flat(parts: seq<seq<Match>>, n: nat): seq<Match>
    requires n <= |parts|
  {
    if n == 0 then [] else Flat(parts, n - 1) + parts[n - 1]
  }

  /** All matches of all files, in the order of the files. */
  function AllMatches(files: seq<LogFile>, matches: string -> bool): seq<Match> {
    Flat(PerFile(files, matches), |files|)
  }

  function Take(ms: seq<Match>, limit: int): seq<Match> {
    if limit <= 0 then [] else if |ms| > limit then ms[..limit] else ms
  }

  ghost predicate Readable(f: LogFile) {
    f.content.Missing? || (f.content.Bytes? && Scannable(f.content.data))
  }

  // ------------------------------------------------------------ the code

  /** The search reaches file k only while it still wants matches. */
  ghost predicate Reaches(files: seq<LogFile>, matches: string -> bool, limit: int, k: nat)
    requires k <= |files|
  {
    |Flat(PerFile(files, matches), k)| < limit
  }

  /** The search gets to file k and cannot read it. */
  ghost predicate Stops(files: seq<LogFile>, matches: string -> bool, limit: int, k: nat)
    requires k < |files|
  {
    !Readable(files[k]) && Reaches(files, matches, limit, k)
  }

  ghost predicate NoneStops(files: seq<LogFile>, matches: string -> bool, limit: int, n: nat)
    requires n <= |files|
  {
    forall k: nat {:trigger Stops(files, matches, limit, k)} | k < n :: !Stops(files, matches, limit, k)
  }

  // fs.go:246-279; limit may be anything, as in the source.
  method SearchLogFiles(files: seq<LogFile>, q: string, matches: string -> bool, limit: int) returns (r: Result)
    ensures r.EmptyQuery? <==> q == ""
    ensures r.Ok? ==> r.matches == Take(AllMatches(files, matches), limit)
    // An unreadable file is fatal exactly if the search gets to it.
    ensures q != "" ==> (r.Failed? <==> !NoneStops(files, matches, limit, |files|))
  {
    if q == "" {
      return EmptyQuery;
    }
    var out: seq<Match> := [];
    var i := 0;
    while i < |files|
      invariant i <= |files| && out == Take(Flat(PerFile(files, matches), i), limit)
      invariant NoneStops(files, matches, limit, i)
    {
      if limit - |out| <= 0 {
        NoMoreWanted(files, matches, limit, i);
        return Ok(out);
      }
      var found := SearchNext(files, i, out, matches, limit);
      if found.Failed? {
        return Failed;
      }
      out := out + found.matches;
      i := i + 1;
    }
    r := Ok(out);
  }

  // fs.go:267-277
  method SearchNext(files: seq<LogFile>, i: nat, out: seq<Match>, matches: string -> bool, limit: int) returns (r: Result)
    requires i < |files| && out == Take(Flat(PerFile(files, matches), i), limit) && |out| < limit
    requires NoneStops(files, matches, limit, i)
    ensures !r.EmptyQuery?
    ensures r.Failed? ==> !NoneStops(files, matches, limit, |files|)
    ensures r.Ok? ==> NoneStops(files, matches, limit, i + 1)
    ensures r.Ok? ==> out + r.matches == Take(Flat(PerFile(files, matches), i + 1), limit)
  {
    OneMoreFile(files, matches, limit, i);
    StopsHere(files, matches, limit, i);
    r := SearchOneFile(files[i], matches, limit - |out|);
  }

  lemma StopsHere(files: seq<LogFile>, matches: string -> bool, limit: int, i: nat)
    requires i < |files| && Reaches(files, matches, limit, i) && NoneStops(files, matches, limit, i)
    ensures if Readable(files[i]) then NoneStops(files, matches, limit, i + 1) else !NoneStops(files, matches, limit, |files|)
  {
    assert Stops(files, matches, limit, i) <==> !Readable(files[i]);
  }

  lemma OneMoreFile(files: seq<LogFile>, matches: string -> bool, limit: int, i: nat)
    requires i < |files|
    requires |Take(Flat(PerFile(files, matches), i), limit)| < limit
    ensures var out := Take(Flat(PerFile(files, matches), i), limit);
              && Reaches(files, matches, limit, i)
              && Take(Flat(PerFile(files, matches), i + 1), limit) == out + Take(MatchesIn(files[i], matches), limit - |out|)
  {
    TakeMore(Flat(PerFile(files, matches), i), MatchesIn(files[i], matches), limit);
  }

  lemma TakeMore(a: seq<Match>, b: seq<Match>, limit: int)
    requires |Take(a, limit)| < limit
    ensures Take(a, limit) == a && Take(a + b, limit) == a + Take(b, limit - |a|)
  {
  }

  lemma NoMoreWanted(files: seq<LogFile>, matches: string -> bool, limit: int, i: nat)
    requires i <= |files| && |Take(Flat(PerFile(files, matches), i), limit)| >= limit
    ensures Take(Flat(PerFile(files, matches), i), limit) == Take(AllMatches(files, matches), limit)
    ensures NoneStops(files, matches, limit, i) ==> NoneStops(files, matches, limit, |files|)
  {
    FlatGrows(PerFile(files, matches), i, |files|);
    forall k: nat {:trigger Stops(files, matches, limit, k)} | i <= k < |files| ensures !Stops(files, matches, limit, k) {
      FlatGrows(PerFile(files, matches), i, k);
    }
  }

  // fs.go:284-316
  method SearchOneFile(f: LogFile, matches: string -> bool, remaining: nat) returns (r: Result)
    ensures !r.EmptyQuery?
    ensures r.Failed? <==> !Readable(f)
    ensures r.Ok? ==> r.matches == Take(MatchesIn(f, matches), remaining)
  {
    match f.content
    case Missing => return Ok([]);
    case Unreadable => return Failed;
    case Bytes(data) =>
      var lines := ScanLines(data);
      var kept := KeepNewest(lines, matches, remaining);
      var fits := FitsScanner(data);
      if !fits {
        return Failed;
      }
      var out := Reverse(f.name, kept);
      LastIsFirst(f.name, Filter(lines, matches), remaining);
      r := Ok(out);
  }

  // fs.go:294-305
  method KeepNewest(lines: seq<string>, matches: string -> bool, remaining: nat) returns (kept: seq<string>)
    ensures kept == LastN(Filter(lines, matches), remaining)
  {
    kept := [];
    var i := 0;
    while i < |lines|
      invariant i <= |lines|
      invariant kept == LastN(Filter(lines[..i], matches), remaining)
    {
      assert lines[..i + 1][..i] == lines[..i];
      if matches(lines[i]) {
        kept := kept + [lines[i]];
        if |kept| > remaining {
          kept := kept[1..];
        }
      }
      i := i + 1;
    }
    assert lines[..i] == lines;
  }

  method FitsScanner(data: string) returns (fits: bool)
    ensures fits <==> Scannable(data)
  {
    var lines := RawLines(data);
    fits := |Rest(data)| < SCAN_BUFFER;
    var i := 0;
    while i < |lines|
      invariant i <= |lines|
      invariant fits <==> |Rest(data)| < SCAN_BUFFER && forall line | line in lines[..i] :: |line| < SCAN_BUFFER
    {
      assert lines[..i + 1] == lines[..i] + [lines[i]];
      fits := fits && |lines[i]| < SCAN_BUFFER;
      i := i + 1;
    }
    assert lines[..i] == lines;
  }

  // internal/instance/fs.go:310-313, filling the result from the back
  method Reverse(name: string, kept: seq<string>) returns (out: seq<Match>)
    ensures out == Newest(name, kept)
  {
    var a := new Match[|kept|](_ => Match("", ""));
    var i := 0;
    while i < |kept|
      invariant i <= |kept|
      invariant forall k | 0 <= k < i :: a[|kept| - 1 - k] == Match(name, kept[k])
    {
      a[|kept| - 1 - i] := Match(name, kept[i]);
      i := i + 1;
    }
    assert forall k | 0 <= k < |kept| :: a[k] == Match(name, kept[|kept| - 1 - k]) by {
      forall k | 0 <= k < |kept| ensures a[k] == Match(name, kept[|kept| - 1 - k]) {
        assert a[|kept| - 1 - (|kept| - 1 - k)] == Match(name, kept[|kept| - 1 - k]);
      }
    }
    out := a[..];
  }

  // ------------------------------------------------------------ told by the bytes

  /** The tokens are the lines of the data; what follows the last newline counts if there is anything. */
  lemma ScanHasLines(data: string)
    ensures HasLines(data, ScanLines(data)[..|RawLines(data)|], Rest(data))
    ensures Rest(data) == "" ==> |ScanLines(data)| == |RawLines(data)|
    ensures Rest(data) != "" ==> |ScanLines(data)| == |RawLines(data)| + 1
    ensures Rest(data) != "" ==>
      var last := ScanLines(data)[|RawLines(data)|];
      Rest(data) == last + "\r" || (Rest(data) == last && last[|last| - 1] != '\r')
  {
    CutHasLines(data);
    assert ScanLines(data)[..|RawLines(data)|] == ChompAll(RawLines(data));
    var rest := Rest(data);
    if rest != "" && rest[|rest| - 1] == '\r' {
      assert rest == rest[..|rest| - 1] + "\r";
    }
  }

  /** Places of a list, in order. */
  predicate InOrder(places: seq<nat>, bound: nat) {
    && (forall j | 0 <= j < |places| :: places[j] < bound)
    && (forall i, j | 0 <= i < j < |places| :: places[i] < places[j])
  }

  /** The places of the matching lines. */
  function Places(lines: seq<string>, matches: string -> bool): (r: seq<nat>)
    ensures |r| == |Filter(lines, matches)|
  {
    if lines == [] then []
    else
      var front := Places(lines[..|lines| - 1], matches);
      if matches(lines[|lines| - 1]) then front + [|lines| - 1] else front
  }

  lemma {:induction false} PlacesInOrder(lines: seq<string>, matches: string -> bool)
    ensures InOrder(Places(lines, matches), |lines|)
  {
    if lines != [] {
      PlacesInOrder(lines[..|lines| - 1], matches);
    }
  }

  lemma {:induction false} PlacesMatch(lines: seq<string>, matches: string -> bool, k: nat)
    requires k < |lines|
    ensures k in Places(lines, matches) <==> matches(lines[k])
  {
    var front := lines[..|lines| - 1];
    PlacesInOrder(front, matches);
    if k < |front| {
      PlacesMatch(front, matches, k);
    } else {
      assert k in Places(front, matches) ==> false;
    }
  }

  lemma {:induction false} FilterAt(lines: seq<string>, matches: string -> bool, j: nat)
    requires j < |Filter(lines, matches)|
    ensures var k := Places(lines, matches)[j]; k < |lines| && Filter(lines, matches)[j] == lines[k]
  {
    var front := lines[..|lines| - 1];
    if j < |Filter(front, matches)| {
      FilterAt(front, matches, j);
    }
  }

  /** found are the matches at these places of a file's lines, the last one first. */
  ghost predicate AreMatches(name: string, lines: seq<string>, places: seq<nat>, found: seq<Match>, matches: string -> bool) {
    && InOrder(places, |lines|) && (forall k | 0 <= k < |lines| :: k in places <==> matches(lines[k]))
    && |found| == |places|
    && forall j | 0 <= j < |found| :: found[j] == Match(name, lines[places[|places| - 1 - j]])
  }

  lemma PlacesAreAll(lines: seq<string>, matches: string -> bool)
    ensures InOrder(Places(lines, matches), |lines|)
    ensures forall k | 0 <= k < |lines| :: k in Places(lines, matches) <==> matches(lines[k])
  {
    PlacesInOrder(lines, matches);
    forall k | 0 <= k < |lines| ensures k in Places(lines, matches) <==> matches(lines[k]) {
      PlacesMatch(lines, matches, k);
    }
  }

  lemma NewestAt(name: string, kept: seq<string>, j: nat)
    requires j < |kept|
    ensures Newest(name, kept)[j] == Match(name, kept[|kept| - 1 - j])
  {
  }

  /** The matches of a file: the matching tokens, all of them, the last one first. */
  lemma MatchesByPlace(f: LogFile, matches: string -> bool)
    requires f.content.Bytes?
    ensures var lines := ScanLines(f.content.data);
      AreMatches(f.name, lines, Places(lines, matches), MatchesIn(f, matches), matches)
  {
    var lines := ScanLines(f.content.data);
    var kept, places := Filter(lines, matches), Places(lines, matches);
    PlacesAreAll(lines, matches);
    forall j: nat | j < |kept| ensures MatchesIn(f, matches)[j] == Match(f.name, lines[places[|places| - 1 - j]]) {
      NewestAt(f.name, kept, j);
      FilterAt(lines, matches, |kept| - 1 - j);
    }
  }

  /** All matches: those of the first file, then those of the second, and so on. */
  lemma MatchesByFile(files: seq<LogFile>, matches: string -> bool, i: nat, j: nat)
    requires i < |files| && j < |MatchesIn(files[i], matches)|
    ensures var before := |Flat(PerFile(files, matches), i)|;
      before + j < |AllMatches(files, matches)| && AllMatches(files, matches)[before + j] == MatchesIn(files[i], matches)[j]
  {
    FlatAt(PerFile(files, matches), i, j);
  }

  lemma FlatAt(parts: seq<seq<Match>>, i: nat, j: nat)
    requires i < |parts| && j < |parts[i]|
    ensures var all, k := Flat(parts, |parts|), |Flat(parts, i)| + j; k < |all| && all[k] == parts[i][j]
  {
    FlatGrows(parts, i + 1, |parts|);
    var upTo := Flat(parts, i + 1);
    assert upTo == Flat(parts, i) + parts[i];
    assert upTo[|Flat(parts, i)| + j] == parts[i][j];
  }

  // ------------------------------------------------------------ lines the scanner can hold

  /** [i, j) has no newline. */
  predicate IsStretch(s: string, i: nat, j: nat) {
    i <= j <= |s| && '\n' !in s[i..j]
  }

  ghost predicate ShortStretches(s: string) {
    forall i: nat, j: nat | IsStretch(s, i, j) :: j - i < 1_048_576
  }

  lemma {:induction false} RestIsLongest(s: string)
    ensures |Rest(s)| <= |s| && IsStretch(s, |s| - |Rest(s)|, |s|)
    ensures forall i: nat | IsStretch(s, i, |s|) :: |s| - i <= |Rest(s)|
  {
    if s != "" {
      var n := |s| - 1;
      RestIsLongest(s[..n]);
      forall i: nat | IsStretch(s, i, |s|) && i < |s| ensures s[n] != '\n' && IsStretch(s[..n], i, n) {
        assert s[i..][n - i] == s[n] && s[i..n] == s[i..][..n - i];
        assert s[i..|s|] == s[i..];
      }
      if s[n] != '\n' {
        var k := n - |Rest(s[..n])|;
        assert s[k..|s|] == s[..n][k..n] + [s[n]];
      }
    }
  }

  lemma StretchOfFront(s: string, i: nat, j: nat)
    requires s != "" && j < |s|
    ensures IsStretch(s, i, j) <==> IsStretch(s[..|s| - 1], i, j)
  {
    if i <= j {
      assert s[..|s| - 1][i..j] == s[i..j];
    }
  }

  /** The scanner reads a file through exactly when no 1_048_576 bytes in a row are without a newline. */
  lemma {:induction false} ScannableMeans(s: string)
    ensures Scannable(s) <==> ShortStretches(s)
  {
    RestIsLongest(s);
    if s != "" {
      var front := s[..|s| - 1];
      ScannableMeans(front);
      RestIsLongest(front);
      forall i, j: nat | j < |s| ensures IsStretch(s, i, j) <==> IsStretch(front, i, j) {
        StretchOfFront(s, i, j);
      }
    }
  }

  // ------------------------------------------------------------ lemmas

  /** Keeping the most recent n and reversing is reversing and keeping the first n. */
  lemma LastIsFirst(name: string, lines: seq<string>, n: nat)
    ensures Newest(name, LastN(lines, n)) == Take(Newest(name, lines), n)
  {
  }

  lemma {:induction false} FlatGrows(parts: seq<seq<Match>>, i: nat, k: nat)
    requires i <= k <= |parts|
    ensures Flat(parts, i) <= Flat(parts, k)
  {
    if i < k {
      FlatGrows(parts, i, k - 1);
    }
  }
}
