/**
 Cutting a byte stream at newlines: what every chunked reader in the repository has to agree with.

 A text has complete lines and a rest without a newline. The rest is carried over when more text comes, so cutting in
 two steps is cutting once; the pieces glue back to the text, and no other newline-free pieces do.
 */
module LineCut {

  /** The complete lines of s, without their newlines. */
  function RawLines(s: string): seq<string> {
    if s == "" then []
    else
      var front, c := s[..|s| - 1], s[|s| - 1];
      if c == '\n' then RawLines(front) + [Rest(front)] else RawLines(front)
  }

  /** What follows the last newline. */
  function Rest(s: string): string {
    if s == "" then ""
    else
      var front, c := s[..|s| - 1], s[|s| - 1];
      if c == '\n' then "" else Rest(front) + [c]
  }

  /** strings.TrimSuffix(line, "\r") */
  function Chomp(line: string): string {
    if line != "" && line[|line| - 1] == '\r' then line[..|line| - 1] else line
  }

  function ChompAll(lines: seq<string>): seq<string> {
    seq(|lines|, k requires 0 <= k < |lines| => Chomp(lines[k]))
  }

  function Concat(chunks: seq<string>): string {
    if chunks == [] then "" else Concat(chunks[..|chunks| - 1]) + chunks[|chunks| - 1]
  }

  function Unlines(lines: seq<string>): string {
    if lines == [] then "" else Unlines(lines[..|lines| - 1]) + lines[|lines| - 1] + "\n"
  }

  /** The last n of some lines, or all of them. */
  function LastN(lines: seq<string>, n: nat): seq<string> {
    if |lines| > n then lines[|lines| - n..] else lines
  }

  /** bytes.IndexByte(s, '\n'), with the length standing for -1 */
  method IndexNewline(s: string) returns (i: nat)
    ensures i <= |s| && '\n' !in s[..i]
    ensures i < |s| ==> s[i] == '\n'
  {
    i := 0;
    while i < |s| && s[i] != '\n'
      invariant i <= |s| && '\n' !in s[..i]
    {
      i := i + 1;
    }
  }

  lemma Snoc(s: string, c: char)
    ensures RawLines(s + [c]) == if c == '\n' then RawLines(s) + [Rest(s)] else RawLines(s)
    ensures Rest(s + [c]) == if c == '\n' then "" else Rest(s) + [c]
  {
    assert (s + [c])[..|s|] == s;
  }

  lemma CutSnoc(a: string, r: string, front: string, c: char)
    requires RawLines(a + front) == RawLines(a) + RawLines(r + front)
    requires Rest(a + front) == Rest(r + front)
    ensures RawLines(a + front + [c]) == RawLines(a) + RawLines(r + front + [c])
    ensures Rest(a + front + [c]) == Rest(r + front + [c])
  {
    Snoc(a + front, c);
    Snoc(r + front, c);
  }

  lemma LastMoves(a: string, b: string)
    requires b != ""
    ensures a + b[..|b| - 1] + [b[|b| - 1]] == a + b
  {
  }

  /** Cutting in two steps, carrying the rest over, is cutting once. */
  lemma {:induction false} CutAppend(a: string, b: string)
    ensures RawLines(a + b) == RawLines(a) + RawLines(Rest(a) + b)
    ensures Rest(a + b) == Rest(Rest(a) + b)
    decreases |b|
  {
    if b == "" {
      assert a + b == a && Rest(a) + b == Rest(a);
      RestUncut(a);
    } else {
      var front, c := b[..|b| - 1], b[|b| - 1];
      CutAppend(a, front);
      CutSnoc(a, Rest(a), front, c);
      LastMoves(a, b);
      LastMoves(Rest(a), b);
    }
  }

  lemma {:induction false} NoNewline(s: string)
    requires '\n' !in s
    ensures RawLines(s) == [] && Rest(s) == s
  {
    if s != "" {
      NoNewline(s[..|s| - 1]);
    }
  }

  lemma {:induction false} RestUncut(s: string)
    ensures '\n' !in Rest(s) && RawLines(Rest(s)) == [] && Rest(Rest(s)) == Rest(s)
  {
    if s != "" {
      RestUncut(s[..|s| - 1]);
    }
    NoNewline(Rest(s));
  }

  /** How a reader peels the first line off its buffer. */
  lemma FirstLine(s: string, i: nat)
    requires i < |s| && s[i] == '\n' && '\n' !in s[..i]
    ensures RawLines(s) == [s[..i]] + RawLines(s[i + 1..])
    ensures Rest(s) == Rest(s[i + 1..])
  {
    var line, tail := s[..i], s[i + 1..];
    assert s == (line + ['\n']) + tail;
    NoNewline(line);
    Snoc(line, '\n');
    CutAppend(line + ['\n'], tail);
    assert "" + tail == tail;
  }

  lemma FirstLineChomped(s: string, i: nat)
    requires i < |s| && s[i] == '\n' && '\n' !in s[..i]
    ensures ChompAll(RawLines(s)) == [Chomp(s[..i])] + ChompAll(RawLines(s[i + 1..]))
    ensures Rest(s) == Rest(s[i + 1..])
  {
    FirstLine(s, i);
    ChompAppend([s[..i]], RawLines(s[i + 1..]));
    ChompOne(s[..i]);
  }

  lemma ChompOne(line: string)
    ensures ChompAll([line]) == [Chomp(line)]
  {
  }

  /** No byte is lost or moved: the cut glues back to s. */
  lemma {:induction false} CutGlues(s: string)
    ensures Unlines(RawLines(s)) + Rest(s) == s
    ensures forall line | line in RawLines(s) :: '\n' !in line
  {
    if s != "" {
      var front := s[..|s| - 1];
      CutGlues(front);
      RestUncut(front);
      assert s == front + [s[|s| - 1]];
      if s[|s| - 1] == '\n' {
        assert RawLines(s)[..|RawLines(s)| - 1] == RawLines(front);
      }
    }
  }

  /** And it is the only way to write s as newline-free pieces. */
  lemma {:induction false} CutUnique(lines: seq<string>, rest: string)
    requires '\n' !in rest && forall line | line in lines :: '\n' !in line
    ensures RawLines(Unlines(lines) + rest) == lines
    ensures Rest(Unlines(lines) + rest) == rest
  {
    NoNewline(rest);
    if lines == [] {
      assert Unlines(lines) + rest == rest;
    } else {
      var front, last := lines[..|lines| - 1], lines[|lines| - 1];
      CutUnique(front, last);
      var s := Unlines(lines);
      assert s[..|s| - 1] == Unlines(front) + last;
      CutAppend(s, rest);
      assert "" + rest == rest;
    }
  }

  lemma ChompAppend(a: seq<string>, b: seq<string>)
    ensures ChompAll(a + b) == ChompAll(a) + ChompAll(b)
  {
  }
}
