/**
 The last lines of a file, read backwards in chunks: tailFile of internal/instance/fs.go and
 readLastLines of internal/logs/tailer.go.
 */
module LogTail {
  import opened LineBytes
  import opened LineCut

  const READ_CHUNK: nat := 65_536

  // ------------------------------------------------------------ specification

  /** strings.Count(s, "\n") */
  function Newlines(s: string): nat {
    if s == "" then 0 else Newlines(s[..|s| - 1]) + (if s[|s| - 1] == '\n' then 1 else 0)
  }

  /** strings.TrimRight(s, "\n") */
  function TrimNewlines(s: string): (r: string)
    ensures |r| <= |s| && r == s[..|r|]
  {
    if s != "" && s[|s| - 1] == '\n' then TrimNewlines(s[..|s| - 1]) else s
  }

  /** strings.Split(s, "\n") */
  function Split(s: string): seq<string> {
    RawLines(s) + [Rest(s)]
  }

  /** The last n lines of a whole file, blank lines at its end not counting. */
  function LastLines(s: string, n: nat): seq<string> {
    var text := TrimNewlines(s);
    if text == "" then [] else LastN(Split(text), n)
  }

  /** Where reading backwards stops: at the start of the file, or once more than n newlines are in hand. */
  function StopAt(file: string, n: nat, chunkSize: nat, pos: nat): (stop: nat)
    requires pos <= |file| && chunkSize > 0
    ensures stop <= pos && (stop == 0 || Newlines(file[stop..]) > n)
    decreases pos
  {
    if pos == 0 || Newlines(file[pos..]) > n then pos
    else StopAt(file, n, chunkSize, if chunkSize > pos then 0 else pos - chunkSize)
  }

  /** What is in memory when reading stops. */
  function ReadBack(file: string, n: nat, chunkSize: nat): string
    requires chunkSize > 0
  {
    file[StopAt(file, n, chunkSize, |file|)..]
  }

  // ------------------------------------------------------------ told by the bytes

  /**
   s is a text and blank lines. With a newline after it the text is head and tail, where head ends with a line; a text
   that is empty has no tail, and when fewer lines than wanted make up the tail it is the whole text.
   */
  predicate IsTail(s: string, text: string, blanks: string, head: string, tail: string, count: nat, n: nat) {
    && s == text + blanks && (forall c | c in blanks :: c == '\n') && (text == "" || text[|text| - 1] != '\n')
    && (if text == "" then tail == "" else text + "\n" == head + tail)
    && (head == "" || head[|head| - 1] == '\n') && (count < n ==> head == "")
  }

  /** The last n lines of s. */
  ghost predicate AreLast(s: string, n: nat, lines: seq<string>) {
    && |lines| <= n && (forall line | line in lines :: '\n' !in line)
    && exists text, blanks, head :: IsTail(s, text, blanks, head, Unlines(lines), |lines|, n)
  }

  predicate AreChomped(lines: seq<string>, ends: seq<string>) {
    |ends| == |lines| && forall k | 0 <= k < |lines| :: IsLine(lines[k], ends[k])
  }

  /** The last n lines of s without the carriage returns that belong to their terminators. */
  ghost predicate AreLastChomped(s: string, n: nat, lines: seq<string>) {
    |lines| <= n && exists text, blanks, head, ends :: IsChompedTail(s, text, blanks, head, lines, ends, n)
  }

  predicate IsChompedTail(s: string, text: string, blanks: string, head: string, lines: seq<string>, ends: seq<string>, n: nat) {
    AreChomped(lines, ends) && IsTail(s, text, blanks, head, Glued(lines, ends), |lines|, n)
  }

  lemma {:induction false} TrimIs(s: string) returns (blanks: string)
    ensures s == TrimNewlines(s) + blanks && forall c | c in blanks :: c == '\n'
    ensures TrimNewlines(s) == "" || TrimNewlines(s)[|TrimNewlines(s)| - 1] != '\n'
  {
    if s != "" && s[|s| - 1] == '\n' {
      var before := TrimIs(s[..|s| - 1]);
      blanks := before + "\n";
      assert s == s[..|s| - 1] + "\n" == TrimNewlines(s) + before + "\n";
    } else {
      blanks := "";
    }
  }

  lemma {:induction false} UnlinesAppend(a: seq<string>, b: seq<string>)
    ensures Unlines(a + b) == Unlines(a) + Unlines(b)
  {
    if b == [] {
      assert a + b == a;
    } else {
      var front, last := b[..|b| - 1], b[|b| - 1];
      UnlinesAppend(a, front);
      assert (a + b)[..|a + b| - 1] == a + front;
      assert Unlines(a) + (Unlines(front) + last + "\n") == Unlines(a) + Unlines(front) + last + "\n";
    }
  }

  lemma UnlinesEnds(a: seq<string>)
    ensures Unlines(a) == "" || Unlines(a)[|Unlines(a)| - 1] == '\n'
  {
  }

  lemma SplitUnlines(text: string)
    ensures Unlines(Split(text)) == text + "\n" && forall line | line in Split(text) :: '\n' !in line
  {
    CutGlues(text);
    RestUncut(text);
    var lines := Split(text);
    assert lines[..|lines| - 1] == RawLines(text);
  }

  lemma LastLinesAreLast(s: string, n: nat)
    ensures AreLast(s, n, LastLines(s, n))
  {
    var text := TrimNewlines(s);
    var blanks := TrimIs(s);
    if text == "" {
      NoTail(s, blanks, n);
    } else {
      SplitUnlines(text);
      TailOfAll(s, text, blanks, Split(text), n);
    }
  }

  lemma NoTail(s: string, blanks: string, n: nat)
    requires s == blanks && forall c | c in blanks :: c == '\n'
    ensures AreLast(s, n, [])
  {
    assert s == "" + blanks;
    assert IsTail(s, "", blanks, "", Unlines([]), 0, n);
  }

  lemma TailOfAll(s: string, text: string, blanks: string, all: seq<string>, n: nat)
    requires s == text + blanks && (forall c | c in blanks :: c == '\n') && text != "" && text[|text| - 1] != '\n'
    requires Unlines(all) == text + "\n" && forall line | line in all :: '\n' !in line
    ensures AreLast(s, n, LastN(all, n))
  {
    var k := if |all| > n then |all| - n else 0;
    assert all == all[..k] + all[k..] && LastN(all, n) == all[k..];
    UnlinesAppend(all[..k], all[k..]);
    UnlinesEnds(all[..k]);
    assert IsTail(s, text, blanks, Unlines(all[..k]), Unlines(all[k..]), |all[k..]|, n);
  }

  lemma ChompedAreLast(s: string, n: nat, lines: seq<string>)
    requires AreLast(s, n, lines)
    ensures AreLastChomped(s, n, ChompAll(lines))
  {
    forall k | 0 <= k < |lines| ensures '\n' !in lines[k] {
      assert lines[k] in lines;
    }
    var ends := RawsGlue(lines);
    var text, blanks, head :| IsTail(s, text, blanks, head, Unlines(lines), |lines|, n);
    assert IsChompedTail(s, text, blanks, head, ChompAll(lines), ends, n);
  }

  /** What readLastLines returns of the part it has read. */
  lemma LastLinesChomped(s: string, n: nat)
    ensures AreLastChomped(s, n, ChompAll(LastLines(s, n)))
  {
    LastLinesAreLast(s, n);
    ChompedAreLast(s, n, LastLines(s, n));
  }

  // ------------------------------------------------------------ when the tail is exact

  /** When the tail b of a file a + b has the same last n lines as the whole file. */
  ghost predicate ReachesBack(a: string, b: string, n: nat) {
    var text := TrimNewlines(b);
    if text == "" then n == 0 || TrimNewlines(a) == ""
    else n <= Newlines(text) || a == "" || (n == Newlines(text) + 1 && Rest(a) == "")
  }

  /** Where reading stops the last n lines are all there. */
  ghost predicate StopsFarEnough(file: string, n: nat, chunkSize: nat)
    requires chunkSize > 0
  {
    var stop := StopAt(file, n, chunkSize, |file|);
    ReachesBack(file[..stop], file[stop..], n)
  }

  // ------------------------------------------------------------ the code

  // internal/instance/fs.go:118-158
  method TailFile(file: string, n: nat, chunkSize: nat) returns (lines: seq<string>)
    requires chunkSize > 0
    ensures lines == LastLines(ReadBack(file, n, chunkSize), n)
    ensures lines == LastLines(file, n) <==> StopsFarEnough(file, n, chunkSize)
    ensures !EndsBlank(file) ==> lines == LastLines(file, n)
  {
    var buf := "";
    var pos := |file|;
    assert file[pos..] == "";
    while pos > 0 && Newlines(buf) <= n
      invariant 0 <= pos <= |file| && buf == file[pos..]
      invariant StopAt(file, n, chunkSize, |file|) == StopAt(file, n, chunkSize, pos)
    {
      var readSize := chunkSize;
      if readSize > pos {
        readSize := pos;
      }
      pos := pos - readSize;
      buf := Prepend(file, pos, readSize, buf);
    }
    EnoughRead(file, n, pos);
    ExactWhereItStops(file, n, chunkSize);
    lines := CutTail(buf, n);
  }

  // internal/instance/fs.go:142-146: the chunk goes in front of what was read before
  method Prepend(file: string, pos: nat, readSize: nat, buf: string) returns (r: string)
    requires pos + readSize <= |file| && buf == file[pos + readSize..]
    ensures r == file[pos..]
  {
    r := file[pos..pos + readSize] + buf;
  }

  method CutTail(buf: string, n: nat) returns (lines: seq<string>)
    ensures lines == LastLines(buf, n)
  {
    var text := TrimNewlines(buf);
    if text == "" {
      return [];
    }
    lines := Split(text);
    if |lines| > n {
      lines := lines[|lines| - n..];
    }
  }

  // internal/logs/tailer.go:288-326
  method ReadLastLines(file: string, n: nat, chunkSize: nat) returns (lines: seq<string>)
    requires chunkSize > 0
    ensures lines == ChompAll(LastLines(ReadBack(file, n, chunkSize), n))
    ensures !EndsBlank(file) ==> lines == ChompAll(LastLines(file, n))
  {
    EnoughRead(file, n, StopAt(file, n, chunkSize, |file|));
    if n == 0 || |file| == 0 {
      return [];
    }
    var data := ReadChunks(file, n, chunkSize);
    lines := CutTail(data, n);
    lines := ChompEach(lines);
  }

  // internal/logs/tailer.go:299-312: chunks from the end until there are more newlines than lines wanted
  method ReadChunks(file: string, n: nat, chunkSize: nat) returns (data: string)
    requires chunkSize > 0
    ensures data == ReadBack(file, n, chunkSize)
  {
    data := "";
    var pos := |file|;
    assert file[pos..] == "";
    while pos > 0
      invariant 0 <= pos <= |file| && data == file[pos..]
      invariant Newlines(data) <= n
      invariant StopAt(file, n, chunkSize, |file|) == StopAt(file, n, chunkSize, pos)
    {
      var readSize := chunkSize;
      if readSize > pos {
        readSize := pos;
      }
      pos := pos - readSize;
      data := Prepend(file, pos, readSize, data);
      if Newlines(data) > n {
        break;
      }
    }
  }

  // internal/logs/tailer.go:322-324: each line loses a carriage return at its end
  method ChompEach(raw: seq<string>) returns (lines: seq<string>)
    ensures lines == ChompAll(raw)
  {
    lines := raw;
    var i := 0;
    while i < |lines|
      invariant i <= |lines| == |raw|
      invariant forall k | 0 <= k < |raw| :: lines[k] == if k < i then Chomp(raw[k]) else raw[k]
    {
      lines := lines[i := Chomp(lines[i])];
      i := i + 1;
    }
  }

  // ------------------------------------------------------------ laws

  predicate EndsBlank(s: string) {
    |s| >= 2 && s[|s| - 1] == '\n' && s[|s| - 2] == '\n'
  }

  lemma {:induction false} CountLines(s: string)
    ensures |RawLines(s)| == Newlines(s)
  {
    if s != "" {
      CountLines(s[..|s| - 1]);
    }
  }

  /** Text put in front of b changes only the first line of b. */
  lemma {:induction false} SplitAfter(r: string, b: string)
    requires '\n' !in r
    ensures Split(r + b) == [r + Split(b)[0]] + Split(b)[1..]
  {
    NoNewline(r);
    if b == "" {
      assert r + b == r;
    } else {
      var front, c := b[..|b| - 1], b[|b| - 1];
      SplitAfter(r, front);
      assert r + b == (r + front) + [c] && b == front + [c];
      SplitSnoc(r + front, c);
      SplitSnoc(front, c);
      SplitAfterSnoc(r, Split(front), Split(r + front), c);
    }
  }

  /** One more byte opens a new last line or extends the last one. */
  function Extend(lines: seq<string>, c: char): seq<string>
    requires lines != []
  {
    if c == '\n' then lines + [""] else lines[..|lines| - 1] + [lines[|lines| - 1] + [c]]
  }

  lemma SplitSnoc(s: string, c: char)
    ensures Split(s + [c]) == Extend(Split(s), c)
  {
    Snoc(s, c);
  }

  lemma SplitAfterSnoc(r: string, lines: seq<string>, longer: seq<string>, c: char)
    requires lines != [] && longer == [r + lines[0]] + lines[1..]
    ensures Extend(longer, c) == [r + Extend(lines, c)[0]] + Extend(lines, c)[1..]
  {
    if |lines| == 1 && c != '\n' {
      assert r + (lines[0] + [c]) == (r + lines[0]) + [c];
    }
  }

  lemma SplitAppend(a: string, b: string)
    ensures Split(a + b) == RawLines(a) + ([Rest(a) + Split(b)[0]] + Split(b)[1..])
  {
    RestUncut(a);
    SplitWhole(a, b);
    SplitAfter(Rest(a), b);
  }

  lemma SplitWhole(a: string, b: string)
    ensures Split(a + b) == RawLines(a) + Split(Rest(a) + b)
  {
    CutAppend(a, b);
  }

  lemma {:induction false} TrimAppend(a: string, b: string)
    ensures TrimNewlines(a + b) == if TrimNewlines(b) == "" then TrimNewlines(a) else a + TrimNewlines(b)
  {
    if b == "" {
      assert a + b == a;
    } else {
      var front, c := b[..|b| - 1], b[|b| - 1];
      assert (a + b)[..|a + b| - 1] == a + front;
      TrimAppend(a, front);
    }
  }

  lemma TailIsExactWhen(a: string, b: string, n: nat)
    ensures LastLines(b, n) == LastLines(a + b, n) <==> ReachesBack(a, b, n)
  {
    TrimAppend(a, b);
    var text := TrimNewlines(b);
    if text == "" {
      if TrimNewlines(a) != "" && n > 0 {
        assert |LastN(Split(TrimNewlines(a)), n)| > 0;
      }
    } else {
      CountLines(text);
      CountLines(a);
      SplitAppend(a, text);
      TailOfLines(RawLines(a), Rest(a), Split(text), n);
      if a != "" && RawLines(a) == [] {
        CutGlues(a);
        assert Rest(a) != "";
      }
      if Rest(a) == "" && RawLines(a) == [] {
        CutGlues(a);
        assert a == "";
      }
    }
  }

  lemma ExactWhereItStops(file: string, n: nat, chunkSize: nat)
    requires chunkSize > 0
    ensures LastLines(ReadBack(file, n, chunkSize), n) == LastLines(file, n) <==> StopsFarEnough(file, n, chunkSize)
  {
    var stop := StopAt(file, n, chunkSize, |file|);
    assert file == file[..stop] + file[stop..];
    TailIsExactWhen(file[..stop], file[stop..], n);
  }

  lemma TailOfLines(before: seq<string>, r: string, lines: seq<string>, n: nat)
    requires lines != []
    ensures var all := before + ([r + lines[0]] + lines[1..]);
            LastN(lines, n) == LastN(all, n) <==> n < |lines| || (r == "" && (before == [] || n == |lines|))
  {
    var tail := [r + lines[0]] + lines[1..];
    var all := before + tail;
    var m := |lines|;
    if n < m {
      assert all[|all| - n..] == tail[m - n..] == lines[m - n..];
    } else if n == m || before == [] {
      assert LastN(all, n) == tail;
      assert tail[0] == r + lines[0] && |r + lines[0]| == |r| + |lines[0]|;
      if r == "" {
        assert r + lines[0] == lines[0];
        assert tail == lines;
      }
    } else {
      assert |LastN(all, n)| > m;
    }
  }

  lemma {:induction false} TrimCounts(s: string)
    requires !EndsBlank(s)
    ensures TrimNewlines(s) == "" ==> Newlines(s) <= 1
    ensures Newlines(s) <= Newlines(TrimNewlines(s)) + 1
  {
  }

  lemma EnoughRead(file: string, n: nat, pos: nat)
    requires pos <= |file|
    requires pos == 0 || Newlines(file[pos..]) > n
    ensures !EndsBlank(file) ==> LastLines(file[pos..], n) == LastLines(file, n)
  {
    if EndsBlank(file) { return; }
    var a, b := file[..pos], file[pos..];
    assert file == a + b;
    TrimCounts(b);
    TailIsExactWhen(a, b, n);
  }

  /**
   Without that proviso the promise fails, for every chunk size: two newlines at the end use
   up the count, so a last line that straddles the first chunk comes back cut in two.
   */
  lemma BlankEndLosesText(chunkSize: nat)
    requires chunkSize >= 3
    ensures var file := "a" + seq(chunkSize - 2, _ => 'b') + "\n\n";
      && !StopsFarEnough(file, 1, chunkSize)
      && LastLines(ReadBack(file, 1, chunkSize), 1) != LastLines(file, 1)
  {
    var bs := seq(chunkSize - 2, _ => 'b');
    var file := "a" + bs + "\n\n";
    StopsInside(bs, chunkSize);
    ExactWhereItStops(file, 1, chunkSize);
  }

  /** The first chunk holds all but the first character and two newlines, so reading stops there. */
  lemma StopsInside(bs: string, chunkSize: nat)
    requires chunkSize == |bs| + 2 && bs != "" && forall k | 0 <= k < |bs| :: bs[k] == 'b'
    ensures !StopsFarEnough("a" + bs + "\n\n", 1, chunkSize)
  {
    var b := bs + "\n\n";
    var file := "a" + bs + "\n\n";
    assert file == "a" + b && file[1..] == b && file[..1] == "a" && file[|file|..] == "";
    AllBs(bs);
    TwoNewlines(bs);
    assert StopAt(file, 1, chunkSize, 1) == 1;
    assert StopAt(file, 1, chunkSize, |file|) == 1;
    NoNewline("a");
  }

  lemma TwoNewlines(s: string)
    ensures Newlines(s + "\n\n") == Newlines(s) + 2 && TrimNewlines(s + "\n\n") == TrimNewlines(s)
  {
    var one, two := s + "\n", s + "\n\n";
    assert two[..|two| - 1] == one && one[..|one| - 1] == s;
  }

  lemma {:induction false} AllBs(bs: string)
    requires bs != "" && forall k | 0 <= k < |bs| :: bs[k] == 'b'
    ensures Newlines(bs) == 0 && TrimNewlines(bs) == bs
  {
    if |bs| > 1 {
      AllBs(bs[..|bs| - 1]);
    } else {
      assert bs[..0] == "";
    }
  }
}
