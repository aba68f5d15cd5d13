/**
 The lossless line splitter of internal/mods/cfg.go:39-68.

 A line is its text and its terminator, a newline, a carriage return and a newline, or nothing at the end of the file.
 Joining what was split gives back every byte. Splitting what was joined gives the lines back, but for a carriage return
 before a bare newline, which becomes part of the terminator; an edited line can end in one.
 */
module CfgLines {
  import opened LineCut

  /** One physical line with the terminator it had: "\n", "\r\n", or none at the end of the file. */
  datatype Line = Line(text: string, term: string)

  // ------------------------------------------------------------ specification

  /** A newline-terminated stretch as a line: a carriage return before the newline belongs to the terminator. */
  function FromRaw(raw: string): Line {
    if raw != "" && raw[|raw| - 1] == '\r' then Line(raw[..|raw| - 1], "\r\n") else Line(raw, "\n")
  }

  function FromRaws(raws: seq<string>): seq<Line> {
    seq(|raws|, k requires 0 <= k < |raws| => FromRaw(raws[k]))
  }

  function Splitted(raw: string): seq<Line> {
    FromRaws(RawLines(raw)) + (if Rest(raw) == "" then [] else [Line(Rest(raw), "")])
  }

  function Joined(lines: seq<Line>): string {
    if lines == [] then ""
    else Joined(lines[..|lines| - 1]) + lines[|lines| - 1].text + lines[|lines| - 1].term
  }

  // ------------------------------------------------------------ the code

  // cfg.go:39-59
  method SplitLines(raw: string) returns (lines: seq<Line>)
    ensures lines == Splitted(raw)
  {
    lines := [];
    var start := 0;
    var i := 0;
    while i < |raw|
      invariant start <= i <= |raw|
      invariant lines == FromRaws(RawLines(raw[..i])) && raw[start..i] == Rest(raw[..i])
    {
      NextChar(raw, start, i);
      if raw[i] == '\n' {
        var end := i;
        var term := "\n";
        if end > start && raw[end - 1] == '\r' {
          end := end - 1;
          term := "\r\n";
        }
        CutsRaw(raw, start, i);
        lines := lines + [Line(raw[start..end], term)];
        start := i + 1;
      }
      i := i + 1;
    }
    assert raw[..i] == raw;
    if start < |raw| {
      lines := lines + [Line(raw[start..], "")];
    }
  }

  lemma NextChar(raw: string, start: nat, i: nat)
    requires start <= i < |raw| && raw[start..i] == Rest(raw[..i])
    ensures if raw[i] == '\n'
            then FromRaws(RawLines(raw[..i + 1])) == FromRaws(RawLines(raw[..i])) + [FromRaw(raw[start..i])]
                 && raw[i + 1..i + 1] == Rest(raw[..i + 1])
            else RawLines(raw[..i + 1]) == RawLines(raw[..i]) && raw[start..i + 1] == Rest(raw[..i + 1])
  {
    assert raw[..i + 1] == raw[..i] + [raw[i]];
    Snoc(raw[..i], raw[i]);
    if raw[i] == '\n' {
      FromRawsSnoc(RawLines(raw[..i]), raw[start..i]);
    }
  }

  lemma FromRawsSnoc(raws: seq<string>, raw: string)
    ensures FromRaws(raws + [raw]) == FromRaws(raws) + [FromRaw(raw)]
  {
  }

  lemma CutsRaw(raw: string, start: nat, i: nat)
    requires start <= i <= |raw|
    ensures FromRaw(raw[start..i])
         == if i > start && raw[i - 1] == '\r' then Line(raw[start..i - 1], "\r\n") else Line(raw[start..i], "\n")
  {
  }

  // cfg.go:61-68
  method JoinLines(lines: seq<Line>) returns (raw: string)
    ensures raw == Joined(lines)
  {
    raw := "";
    var i := 0;
    while i < |lines|
      invariant i <= |lines| && raw == Joined(lines[..i])
    {
      assert lines[..i + 1][..i] == lines[..i];
      raw := raw + lines[i].text;
      raw := raw + lines[i].term;
      i := i + 1;
    }
    assert lines[..i] == lines;
  }

  // ------------------------------------------------------------ laws

  /** What a line contributes before its newline. */
  function ToRaw(l: Line): string {
    if l.term == "\r\n" then l.text + "\r" else l.text
  }

  function ToRaws(lines: seq<Line>): seq<string> {
    seq(|lines|, k requires 0 <= k < |lines| => ToRaw(lines[k]))
  }

  predicate Terminated(l: Line) {
    l.term == "\n" || l.term == "\r\n"
  }

  /** Lines as splitting can produce them, except that a text may end in a carriage return. */
  ghost predicate Physical(lines: seq<Line>) {
    && (forall k | 0 <= k < |lines| :: '\n' !in lines[k].text)
    && (forall k | 0 <= k < |lines| - 1 :: Terminated(lines[k]))
    && (lines != [] ==> var l := lines[|lines| - 1]; Terminated(l) || (l.term == "" && l.text != ""))
  }

  lemma {:induction false} JoinedTerminated(lines: seq<Line>)
    requires forall k | 0 <= k < |lines| :: Terminated(lines[k])
    ensures Joined(lines) == Unlines(ToRaws(lines))
  {
    if lines != [] {
      var front, last := lines[..|lines| - 1], lines[|lines| - 1];
      JoinedTerminated(front);
      var raws := ToRaws(lines);
      assert raws[..|raws| - 1] == ToRaws(front) && raws[|raws| - 1] == ToRaw(last);
      assert last.text + last.term == ToRaw(last) + "\n";
      assert Joined(front) + last.text + last.term == Joined(front) + (last.text + last.term);
    }
  }

  lemma JoinedOpen(lines: seq<Line>, text: string)
    requires forall k | 0 <= k < |lines| :: Terminated(lines[k])
    ensures Joined(lines + [Line(text, "")]) == Unlines(ToRaws(lines)) + text
  {
    var all := lines + [Line(text, "")];
    assert all[..|all| - 1] == lines;
    JoinedTerminated(lines);
    assert Joined(lines) + text + "" == Joined(lines) + text;
  }

  lemma RawsRoundTrip(raws: seq<string>)
    ensures ToRaws(FromRaws(raws)) == raws
  {
    forall k | 0 <= k < |raws| ensures ToRaw(FromRaw(raws[k])) == raws[k] {
      if raws[k] != "" && raws[k][|raws[k]| - 1] == '\r' {
        assert raws[k] == raws[k][..|raws[k]| - 1] + "\r";
      }
    }
  }

  /** Splitting is lossless. */
  lemma JoinInvertsSplit(raw: string)
    ensures Joined(Splitted(raw)) == raw
  {
    CutGlues(raw);
    var lines := FromRaws(RawLines(raw));
    RawsRoundTrip(RawLines(raw));
    if Rest(raw) == "" {
      assert lines + [] == lines;
      JoinedTerminated(lines);
      assert Unlines(RawLines(raw)) + "" == Unlines(RawLines(raw));
    } else {
      JoinedOpen(lines, Rest(raw));
    }
  }

  /** Splitting yields physical lines, and no text keeps a carriage return that belongs to a terminator. */
  lemma SplitIsPhysical(raw: string)
    ensures Physical(Splitted(raw))
    ensures forall l | l in Splitted(raw) && l.term == "\n" :: l.text == "" || l.text[|l.text| - 1] != '\r'
  {
    RestUncut(raw);
    CutGlues(raw);
    CutLines(raw);
    OpenEnd(FromRaws(RawLines(raw)), Rest(raw));
  }

  /** Cut lines with whatever is left after them. */
  lemma OpenEnd(cut: seq<Line>, rest: string)
    requires (forall k | 0 <= k < |cut| :: IsCutLine(cut[k])) && '\n' !in rest
    ensures var lines := cut + (if rest == "" then [] else [Line(rest, "")]);
      Physical(lines) && forall l | l in lines && l.term == "\n" :: l.text == "" || l.text[|l.text| - 1] != '\r'
  {
  }

  lemma CutLines(raw: string)
    ensures var cut := FromRaws(RawLines(raw)); forall k | 0 <= k < |cut| :: IsCutLine(cut[k])
  {
    CutGlues(raw);
    var raws := RawLines(raw);
    forall k | 0 <= k < |raws| ensures IsCutLine(FromRaw(raws[k])) {
      assert raws[k] in raws;
      RawIsCutLine(raws[k]);
    }
  }

  /** A terminated line as the splitter makes it. */
  predicate IsCutLine(l: Line) {
    '\n' !in l.text && Terminated(l) && (l.term == "\n" ==> l.text == "" || l.text[|l.text| - 1] != '\r')
  }

  lemma RawIsCutLine(raw: string)
    requires '\n' !in raw
    ensures IsCutLine(FromRaw(raw))
  {
  }

  /** A line re-read: only a text ending in a carriage return before a bare newline comes out differently. */
  function Reread(l: Line): Line {
    if Terminated(l) then FromRaw(ToRaw(l)) else l
  }

  function RereadAll(lines: seq<Line>): seq<Line> {
    seq(|lines|, k requires 0 <= k < |lines| => Reread(lines[k]))
  }

  lemma SplitAfterJoin(lines: seq<Line>)
    requires Physical(lines)
    ensures Splitted(Joined(lines)) == RereadAll(lines)
  {
    if lines == [] || Terminated(lines[|lines| - 1]) {
      SplitTerminated(lines);
    } else {
      var front, last := lines[..|lines| - 1], lines[|lines| - 1];
      assert lines == front + [Line(last.text, "")];
      SplitOpen(front, last.text);
    }
  }

  lemma SplitTerminated(lines: seq<Line>)
    requires forall k | 0 <= k < |lines| :: '\n' !in lines[k].text && Terminated(lines[k])
    ensures Splitted(Joined(lines)) == RereadAll(lines)
  {
    RawsClean(lines);
    JoinedTerminated(lines);
    CutUnique(ToRaws(lines), "");
    assert Unlines(ToRaws(lines)) + "" == Unlines(ToRaws(lines));
    RereadIsFromRaw(lines);
    assert RereadAll(lines) + [] == RereadAll(lines);
  }

  lemma SplitOpen(front: seq<Line>, text: string)
    requires forall k | 0 <= k < |front| :: '\n' !in front[k].text && Terminated(front[k])
    requires '\n' !in text && text != ""
    ensures Splitted(Joined(front + [Line(text, "")])) == RereadAll(front + [Line(text, "")])
  {
    RawsClean(front);
    JoinedOpen(front, text);
    CutUnique(ToRaws(front), text);
    RereadIsFromRaw(front);
    RereadSnoc(front, Line(text, ""));
  }

  lemma RereadSnoc(front: seq<Line>, l: Line)
    ensures RereadAll(front + [l]) == RereadAll(front) + [Reread(l)]
  {
  }

  lemma RereadIsFromRaw(lines: seq<Line>)
    requires forall k | 0 <= k < |lines| :: Terminated(lines[k])
    ensures FromRaws(ToRaws(lines)) == RereadAll(lines)
  {
  }

  lemma RawsClean(lines: seq<Line>)
    requires forall k | 0 <= k < |lines| :: '\n' !in lines[k].text
    ensures forall r | r in ToRaws(lines) :: '\n' !in r
  {
  }
}
