/** Lines told by the bytes: texts, each with its terminator, and a rest that has none. */
module LineBytes {
  import opened LineCut

  /** Each line followed by its terminator. */
  function Glued(lines: seq<string>, ends: seq<string>): string
    requires |lines| == |ends|
  {
    if lines == [] then ""
    else Glued(lines[..|lines| - 1], ends[..|ends| - 1]) + lines[|lines| - 1] + ends[|ends| - 1]
  }

  /** A line without its terminator: a carriage return before the newline belongs to the terminator. */
  predicate IsLine(line: string, end: string) {
    && '\n' !in line
    && (end == "\r\n" || (end == "\n" && (line == "" || line[|line| - 1] != '\r')))
  }

  /** s consists of these lines with their terminators, and a rest without a newline. */
  predicate CutsInto(s: string, lines: seq<string>, ends: seq<string>, rest: string) {
    && |lines| == |ends| && s == Glued(lines, ends) + rest && '\n' !in rest
    && forall k | 0 <= k < |lines| :: IsLine(lines[k], ends[k])
  }

  ghost predicate HasLines(s: string, lines: seq<string>, rest: string) {
    exists ends :: CutsInto(s, lines, ends, rest)
  }

  // ------------------------------------------------------------ the lines of a text

  function EndOf(raw: string): string {
    if raw != "" && raw[|raw| - 1] == '\r' then "\r\n" else "\n"
  }

  lemma ChompIsLine(raw: string)
    requires '\n' !in raw
    ensures IsLine(Chomp(raw), EndOf(raw)) && Chomp(raw) + EndOf(raw) == raw + "\n"
  {
    if raw != "" && raw[|raw| - 1] == '\r' {
      assert raw == raw[..|raw| - 1] + "\r";
    }
  }

  lemma LineIsChomp(line: string, end: string, raw: string)
    requires IsLine(line, end) && line + end == raw + "\n"
    ensures Chomp(raw) == line
  {
    var s := line + end;
    assert raw == s[..|s| - 1];
    if end == "\r\n" {
      assert raw == line + "\r";
    } else {
      assert raw == line;
    }
  }

  lemma {:induction false} RawsGlue(raws: seq<string>) returns (ends: seq<string>)
    requires forall k | 0 <= k < |raws| :: '\n' !in raws[k]
    ensures |ends| == |raws| && Glued(ChompAll(raws), ends) == Unlines(raws)
    ensures forall k | 0 <= k < |raws| :: IsLine(ChompAll(raws)[k], ends[k])
  {
    if raws == [] {
      ends := [];
    } else {
      var front, raw := raws[..|raws| - 1], raws[|raws| - 1];
      var before := RawsGlue(front);
      ends := before + [EndOf(raw)];
      ChompIsLine(raw);
      assert ChompAll(raws)[..|raws| - 1] == ChompAll(front) && ends[..|ends| - 1] == before;
      RegroupEnd(Unlines(front), Chomp(raw), EndOf(raw), raw);
    }
  }

  lemma RegroupEnd(a: string, line: string, end: string, raw: string)
    requires line + end == raw + "\n"
    ensures a + line + end == a + raw + "\n"
  {
    assert a + line + end == a + (line + end);
    assert a + raw + "\n" == a + (raw + "\n");
  }

  /** Cutting at newlines gives the lines of the text, carriage returns removed where they belong to a terminator. */
  lemma CutHasLines(s: string)
    ensures HasLines(s, ChompAll(RawLines(s)), Rest(s))
  {
    CutGlues(s);
    RestUncut(s);
    var raws := RawLines(s);
    forall k | 0 <= k < |raws| ensures '\n' !in raws[k] {
      assert raws[k] in raws;
    }
    var ends := RawsGlue(raws);
    assert CutsInto(s, ChompAll(raws), ends, Rest(s));
  }

  lemma {:induction false} GluedRaws(lines: seq<string>, ends: seq<string>) returns (raws: seq<string>)
    requires |lines| == |ends| && forall k | 0 <= k < |lines| :: IsLine(lines[k], ends[k])
    ensures |raws| == |lines| && ChompAll(raws) == lines && Unlines(raws) == Glued(lines, ends)
    ensures forall raw | raw in raws :: '\n' !in raw
  {
    if lines == [] {
      raws := [];
    } else {
      var front, line, end := lines[..|lines| - 1], lines[|lines| - 1], ends[|ends| - 1];
      var before := GluedRaws(front, ends[..|ends| - 1]);
      var raw := line + (if end == "\r\n" then "\r" else "");
      assert line + end == raw + "\n";
      LineIsChomp(line, end, raw);
      raws := before + [raw];
      assert raws[..|raws| - 1] == before;
      RegroupEnd(Unlines(before), line, end, raw);
      assert ChompAll(raws) == ChompAll(before) + [line];
    }
  }

  /** And those are the only ones. */
  lemma LinesAreTheCut(s: string, lines: seq<string>, rest: string)
    requires HasLines(s, lines, rest)
    ensures lines == ChompAll(RawLines(s)) && rest == Rest(s)
  {
    var ends :| CutsInto(s, lines, ends, rest);
    var raws := GluedRaws(lines, ends);
    CutUnique(raws, rest);
  }

  lemma GluedSnoc(lines: seq<string>, ends: seq<string>, line: string, end: string)
    requires |lines| == |ends|
    ensures Glued(lines + [line], ends + [end]) == Glued(lines, ends) + line + end
  {
    assert (lines + [line])[..|lines|] == lines && (ends + [end])[..|ends|] == ends;
  }

  lemma Regroup3(g: string, h: string, line: string, end: string)
    ensures g + (h + line + end) == g + h + line + end
  {
  }

  lemma {:induction false} GluedAppend(a: seq<string>, ea: seq<string>, b: seq<string>, eb: seq<string>)
    requires |a| == |ea| && |b| == |eb|
    ensures Glued(a + b, ea + eb) == Glued(a, ea) + Glued(b, eb)
  {
    if b == [] {
      assert a + b == a && ea + eb == ea;
    } else {
      var n := |b| - 1;
      GluedAppend(a, ea, b[..n], eb[..n]);
      GluedSnoc(a + b[..n], ea + eb[..n], b[n], eb[n]);
      assert a + b == a + b[..n] + [b[n]] && ea + eb == ea + eb[..n] + [eb[n]];
      Regroup3(Glued(a, ea), Glued(b[..n], eb[..n]), b[n], eb[n]);
    }
  }
}
