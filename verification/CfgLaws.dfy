/**
 What editing a .cfg file and reading it again promise, internal/mods/cfg.go:75-263.

 An edited file is joined, split again and parsed. A value with a line break in it is lost outright (`BreakIsLost`).
 Otherwise the parser walks through the old and the new lines in step (`InStep`): the same sections and keys, and the
 values asked for as long as every line so far can give back what it took (`Faithful`).
 */
module CfgLaws {
  import opened Ascii
  import opened CfgEditor
  import opened CfgFile
  import opened CfgLines
  import opened CfgScanning
  import opened CfgSettings
  import opened CfgSyntax
  import opened LineCut
  import opened SectionSort
  import opened Wrappers

  function Updated(e: Entry, m: map<string, string>): Entry {
    if KeyOf(e) in m then e.(value := m[KeyOf(e)]) else e
  }

  function Updater(m: map<string, string>): Entry -> Entry {
    e => Updated(e, m)
  }

  predicate EndsInCr(s: string) {
    s != "" && s[|s| - 1] == '\r'
  }

  /** The new values a line with this terminator can hold and give back. */
  predicate Faithful(v: string, term: string) {
    StartsNonWs(v) && '\n' !in v && !(term == "\n" && EndsInCr(v))
  }

  // ------------------------------------------------------------ one line

  /** A line with a bare newline loses a carriage return before it when the file is split again. */
  function Kept(text: string, term: string): string {
    if term == "\n" && EndsInCr(text) then text[..|text| - 1] else text
  }

  lemma RereadText(text: string, term: string)
    ensures Reread(Line(text, term)).text == Kept(text, term)
  {
    if term == "\r\n" {
      assert (text + "\r")[..|text|] == text;
    }
  }

  /** The setting a printed setting is read back as. */
  function KeptSetting(s: Setting, term: string): Setting {
    if term == "\n" && EndsInCr(Print(s)) && (s.value != "" || s.after != "") then Chopped(s) else s
  }

  lemma PrintRereads(s: Setting, term: string)
    requires KindOf(Print(s)) == Value(s)
    ensures KindOf(Kept(Print(s), term)) == Value(KeptSetting(s, term))
  {
    if term == "\n" && EndsInCr(Print(s)) {
      ChopRereads(s);
    }
  }

  lemma ChopRereads(s: Setting)
    requires KindOf(Print(s)) == Value(s) && EndsInCr(Print(s))
    ensures KindOf(Kept(Print(s), "\n")) == Value(KeptSetting(s, "\n"))
  {
    ChopReadsBack(s);
  }

  /** The setting a line holds after v was written in and the file was split again. */
  function ReadBack(s: Setting, v: string, term: string): Setting {
    KeptSetting(Settled(s, v), term)
  }

  lemma SettingRereads(text: string, v: string, term: string)
    requires KindOf(text).Value?
    ensures var s := KindOf(text).setting;
      KindOf(Reread(Line(Print(s.(value := v)), term)).text) == Value(ReadBack(s, v, term))
  {
    var s := KindOf(text).setting;
    RewriteReadsBack(text, v);
    ValuePrints(text);
    SettledPrints(s, v);
    RereadText(Print(s.(value := v)), term);
    PrintRereads(Settled(s, v), term);
  }

  lemma KeptValue(s: Setting, term: string)
    ensures KeptSetting(s, term).value == Kept(s.value, term)
  {
  }

  /** The value comes back exactly when it is one the line can hold. */
  lemma ValueComesBack(s: Setting, v: string, term: string)
    requires '\n' !in v
    ensures ReadBack(s, v, term).value == v <==> Faithful(v, term)
  {
    SettledValue(s, v);
    KeptValue(Settled(s, v), term);
    assert |Kept(v, term)| == |v| <==> Kept(v, term) == v;
  }

  // ------------------------------------------------------------ a file line by line

  ghost predicate OkAt(section: string, kind: Kind, term: string, m: map<string, string>) {
    NewValue(section, kind, m).Some? ==> Faithful(NewValue(section, kind, m).value, term)
  }

  ghost predicate NoBreak(section: string, kind: Kind, m: map<string, string>) {
    NewValue(section, kind, m).Some? ==> '\n' !in NewValue(section, kind, m).value
  }

  /** What the line is after the edit and a second reading. */
  function Rekind(section: string, kind: Kind, term: string, m: map<string, string>): Kind {
    match NewValue(section, kind, m)
    case None => kind
    case Some(v) => Value(ReadBack(kind.setting, v, term))
  }

  lemma LineRekinds(section: string, l: Line, m: map<string, string>)
    requires Reread(l) == l
    ensures KindOf(Reread(EditLine(section, l, m)).text) == Rekind(section, KindOf(l.text), l.term, m)
  {
    var kind := KindOf(l.text);
    if NewValue(section, kind, m).Some? {
      SettingRereads(l.text, NewValue(section, kind, m).value, l.term);
    }
  }

  ghost predicate SameSections(a: seq<Entry>, b: seq<Entry>) {
    |a| == |b| && forall i | 0 <= i < |a| :: SectionName(a[i]) == SectionName(b[i])
  }

  /** The parser on the file before and after: in step, and equal up to the updates exactly if ok. */
  ghost predicate InStep(a: Parse, b: Parse, m: map<string, string>, ok: bool) {
    && a.section == b.section && a.pending == b.pending && SameSections(a.entries, b.entries)
    && (b.entries == Mapped(a.entries, Updater(m)) <==> ok)
  }

  lemma SnocInStep(a: seq<Entry>, b: seq<Entry>, e: Entry, r: Entry, m: map<string, string>)
    requires SameSections(a, b) && e.section == r.section
    ensures SameSections(a + [e], b + [r])
    ensures b + [r] == Mapped(a + [e], Updater(m)) <==> b == Mapped(a, Updater(m)) && r == Updated(e, m)
  {
    assert Mapped(a + [e], Updater(m)) == Mapped(a, Updater(m)) + [Updated(e, m)];
    assert b + [r] == Mapped(a, Updater(m)) + [Updated(e, m)] ==>
      b == (b + [r])[..|b|] == Mapped(a, Updater(m)) && r == (b + [r])[|b|] == Updated(e, m);
  }

  lemma StepInStep(a: Parse, b: Parse, kind: Kind, term: string, m: map<string, string>, ok: bool)
    requires InStep(a, b, m, ok) && NoBreak(a.section, kind, m)
    ensures InStep(Step(a, kind), Step(b, Rekind(a.section, kind, term, m)), m, ok && OkAt(a.section, kind, term, m))
  {
    if kind.Value? {
      var e := MakeEntry(a.section, a.pending, kind.setting);
      var v := NewValue(a.section, kind, m);
      if v.Some? {
        ValueComesBack(kind.setting, v.value, term);
        SnocInStep(a.entries, b.entries, e, MakeEntry(a.section, a.pending, ReadBack(kind.setting, v.value, term)), m);
      } else {
        SnocInStep(a.entries, b.entries, e, e, m);
      }
    }
  }

  // ------------------------------------------------------------ a whole file

  /** Lines as the splitter delivers them. */
  ghost predicate WellSplit(lines: seq<Line>) {
    Physical(lines) && forall k | 0 <= k < |lines| :: Reread(lines[k]) == lines[k]
  }

  lemma SplitIsWell(raw: string)
    ensures WellSplit(Splitted(raw))
  {
    SplitIsPhysical(raw);
    var lines := Splitted(raw);
    forall k | 0 <= k < |lines| ensures Reread(lines[k]) == lines[k] {
      assert lines[k] in lines;
      RereadText(lines[k].text, lines[k].term);
    }
  }

  function SectionAt(kinds: seq<Kind>, k: nat): string
    requires k < |kinds|
  {
    StateAt(kinds, k).section
  }

  ghost predicate LineOk(kinds: seq<Kind>, terms: seq<string>, k: nat, m: map<string, string>)
    requires k < |kinds| == |terms|
  {
    OkAt(SectionAt(kinds, k), kinds[k], terms[k], m)
  }

  ghost predicate OkUpTo(kinds: seq<Kind>, terms: seq<string>, n: nat, m: map<string, string>)
    requires n <= |kinds| == |terms|
  {
    forall k: nat {:trigger LineOk(kinds, terms, k, m)} | k < n :: LineOk(kinds, terms, k, m)
  }

  /** again holds the lines of kinds after the edit and a second reading. */
  ghost predicate Follows(kinds: seq<Kind>, again: seq<Kind>, terms: seq<string>, k: nat, m: map<string, string>)
    requires k < |kinds| == |again| == |terms|
  {
    && NoBreak(SectionAt(kinds, k), kinds[k], m)
    && again[k] == Rekind(SectionAt(kinds, k), kinds[k], terms[k], m)
  }

  lemma {:induction false} Lockstep(kinds: seq<Kind>, again: seq<Kind>, terms: seq<string>, n: nat, m: map<string, string>)
    requires n <= |kinds| == |again| == |terms|
    requires forall k: nat {:trigger Follows(kinds, again, terms, k, m)} | k < |kinds| :: Follows(kinds, again, terms, k, m)
    ensures InStep(StateAt(kinds, n), StateAt(again, n), m, OkUpTo(kinds, terms, n, m))
  {
    if n > 0 {
      Lockstep(kinds, again, terms, n - 1, m);
      assert Follows(kinds, again, terms, n - 1, m);
      StepInStep(StateAt(kinds, n - 1), StateAt(again, n - 1), kinds[n - 1], terms[n - 1], m,
                 OkUpTo(kinds, terms, n - 1, m));
      OkUpToSnoc(kinds, terms, n - 1, m);
    }
  }

  lemma OkUpToSnoc(kinds: seq<Kind>, terms: seq<string>, n: nat, m: map<string, string>)
    requires n < |kinds| == |terms|
    ensures OkUpTo(kinds, terms, n + 1, m) <==> OkUpTo(kinds, terms, n, m) && LineOk(kinds, terms, n, m)
  {
  }

  function Terms(lines: seq<Line>): (r: seq<string>)
    ensures |r| == |lines|
  {
    seq(|lines|, k requires 0 <= k < |lines| => lines[k].term)
  }

  function ReEdited(lines: seq<Line>, m: map<string, string>): (r: seq<Line>)
    ensures |r| == |lines|
  {
    RereadAll(EditedLines(lines, m))
  }

  lemma RekindsAt(lines: seq<Line>, k: nat, m: map<string, string>)
    requires k < |lines| && Reread(lines[k]) == lines[k]
    ensures Kinds(ReEdited(lines, m))[k] == Rekind(SectionAt(Kinds(lines), k), Kinds(lines)[k], Terms(lines)[k], m)
  {
    LineRekinds(SectionAt(Kinds(lines), k), lines[k], m);
  }

  // ------------------------------------------------------------ values a file can give back

  ghost predicate CleanValues(entries: seq<Entry>) {
    forall e | e in entries :: '\n' !in e.value
  }

  ghost predicate CleanKinds(kinds: seq<Kind>) {
    forall k | 0 <= k < |kinds| && kinds[k].Value? :: '\n' !in kinds[k].setting.value
  }

  lemma LineIsClean(text: string)
    requires KindOf(text).Value? && '\n' !in text
    ensures '\n' !in KindOf(text).setting.value
  {
  }

  lemma LinesAreClean(lines: seq<Line>)
    requires Physical(lines)
    ensures CleanKinds(Kinds(lines))
  {
    forall k | 0 <= k < |lines| && Kinds(lines)[k].Value? ensures '\n' !in Kinds(lines)[k].setting.value {
      LineIsClean(lines[k].text);
    }
  }

  lemma {:induction false} EntriesAreClean(kinds: seq<Kind>, n: nat)
    requires CleanKinds(kinds) && n <= |kinds|
    ensures CleanValues(StateAt(kinds, n).entries)
  {
    if n > 0 {
      EntriesAreClean(kinds, n - 1);
    }
  }

  lemma ParsedIsClean(raw: string)
    ensures CleanValues(Parsed(raw))
  {
    var lines := Splitted(raw);
    SplitIsPhysical(raw);
    LinesAreClean(lines);
    EntriesAreClean(Kinds(lines), |lines|);
    SortMembers(FileEntries(Kinds(lines)), SectionName);
  }

  lemma {:induction false} EntryStays(kinds: seq<Kind>, k: nat, n: nat, e: Entry)
    requires k <= n <= |kinds| && e in StateAt(kinds, k).entries
    ensures e in StateAt(kinds, n).entries
    decreases n - k
  {
    if k < n {
      assert e in StateAt(kinds, k + 1).entries;
      EntryStays(kinds, k + 1, n, e);
    }
  }

  function EntryAt(kinds: seq<Kind>, k: nat): Entry
    requires k < |kinds| && kinds[k].Value?
  {
    MakeEntry(StateAt(kinds, k).section, StateAt(kinds, k).pending, kinds[k].setting)
  }

  /** A setting line is an entry of the file. */
  lemma LineIsEntry(kinds: seq<Kind>, k: nat)
    requires k < |kinds| && kinds[k].Value?
    ensures EntryAt(kinds, k) in FileEntries(kinds)
  {
    assert EntryAt(kinds, k) in StateAt(kinds, k + 1).entries;
    EntryStays(kinds, k + 1, |kinds|, EntryAt(kinds, k));
  }

  /** And every entry is a setting line. */
  lemma {:induction false} EntryIsLine(kinds: seq<Kind>, n: nat, e: Entry)
    requires n <= |kinds| && e in StateAt(kinds, n).entries
    ensures exists k: nat :: k < n && kinds[k].Value? && EntryAt(kinds, k) == e
  {
    if e in StateAt(kinds, n - 1).entries {
      EntryIsLine(kinds, n - 1, e);
    }
  }

  // ------------------------------------------------------------ reading back

  /** Every line can give back what it takes. */
  ghost predicate AllFaithful(raw: string, m: map<string, string>) {
    var lines := Splitted(raw);
    OkUpTo(Kinds(lines), Terms(lines), |lines|, m)
  }

  lemma EditLineClean(section: string, l: Line, m: map<string, string>)
    requires '\n' !in l.text && NoBreak(section, KindOf(l.text), m)
    ensures '\n' !in EditLine(section, l, m).text && EditLine(section, l, m).term == l.term
    ensures l.text != "" ==> EditLine(section, l, m).text != ""
  {
    if KindOf(l.text).Value? {
      ValuePrints(l.text);
    }
  }

  lemma EditedLineClean(lines: seq<Line>, k: nat, m: map<string, string>)
    requires k < |lines| && '\n' !in lines[k].text && NoBreak(SectionAt(Kinds(lines), k), Kinds(lines)[k], m)
    ensures var l := EditedLines(lines, m)[k];
      && '\n' !in l.text && l.term == lines[k].term && (lines[k].text != "" ==> l.text != "")
  {
    EditLineClean(SectionAt(Kinds(lines), k), lines[k], m);
  }

  lemma StaysPhysical(a: seq<Line>, b: seq<Line>)
    requires Physical(a) && |a| == |b|
    requires forall k | 0 <= k < |a| :: b[k].term == a[k].term && '\n' !in b[k].text && (a[k].text != "" ==> b[k].text != "")
    ensures Physical(b)
  {
  }

  ghost predicate NoBreaks(kinds: seq<Kind>, m: map<string, string>) {
    forall k: nat {:trigger SectionAt(kinds, k)} | k < |kinds| :: NoBreak(SectionAt(kinds, k), kinds[k], m)
  }

  lemma EditedIsPhysical(lines: seq<Line>, m: map<string, string>)
    requires Physical(lines) && NoBreaks(Kinds(lines), m)
    ensures Physical(EditedLines(lines, m))
  {
    var edited := EditedLines(lines, m);
    forall k: nat | k < |lines|
      ensures edited[k].term == lines[k].term && '\n' !in edited[k].text && (lines[k].text != "" ==> edited[k].text != "")
    {
      var _ := SectionAt(Kinds(lines), k);
      EditedLineClean(lines, k, m);
    }
    StaysPhysical(lines, edited);
  }

  /** A value with a line break is never read back. */
  lemma BreakIsLost(raw: string, m: map<string, string>, k: nat)
    requires k < |Splitted(raw)|
    requires !NoBreak(SectionAt(Kinds(Splitted(raw)), k), Kinds(Splitted(raw))[k], m)
    ensures !AllFaithful(raw, m)
    ensures Parsed(Edited(raw, m)) != Mapped(Parsed(raw), Updater(m))
  {
    var lines := Splitted(raw);
    assert !LineOk(Kinds(lines), Terms(lines), k, m);
    LineIsEntry(Kinds(lines), k);
    var e := EntryAt(Kinds(lines), k);
    SortMembers(FileEntries(Kinds(lines)), SectionName);
    var i :| 0 <= i < |Parsed(raw)| && Parsed(raw)[i] == e;
    ParsedIsClean(Edited(raw, m));
    assert '\n' in Mapped(Parsed(raw), Updater(m))[i].value;
    assert Mapped(Parsed(raw), Updater(m))[i] in Mapped(Parsed(raw), Updater(m));
  }

  lemma SortedInStep(a: seq<Entry>, b: seq<Entry>, m: map<string, string>)
    requires SameSections(a, b)
    ensures StableSorted(b, SectionName) == Mapped(StableSorted(a, SectionName), Updater(m)) <==> b == Mapped(a, Updater(m))
  {
    SortMapped(a, SectionName, Updater(m), SectionName);
    if StableSorted(b, SectionName) == StableSorted(Mapped(a, Updater(m)), SectionName) {
      SortInjective(b, Mapped(a, Updater(m)), SectionName);
    }
  }

  lemma EditedInStep(lines: seq<Line>, m: map<string, string>)
    requires WellSplit(lines) && NoBreaks(Kinds(lines), m)
    ensures InStep(StateAt(Kinds(lines), |lines|), StateAt(Kinds(ReEdited(lines, m)), |lines|), m,
                   OkUpTo(Kinds(lines), Terms(lines), |lines|, m))
  {
    var kinds, again, terms := Kinds(lines), Kinds(ReEdited(lines, m)), Terms(lines);
    forall k: nat | k < |kinds| ensures Follows(kinds, again, terms, k, m) {
      RekindsAt(lines, k, m);
    }
    Lockstep(kinds, again, terms, |lines|, m);
  }

  /**
   Reading a file again after writing values in gives the old entries with exactly those values,
   precisely when every line that takes a value can give it back.
   */
  lemma ReadsBackExactlyWhen(raw: string, m: map<string, string>)
    ensures Parsed(Edited(raw, m)) == Mapped(Parsed(raw), Updater(m)) <==> AllFaithful(raw, m)
  {
    var lines := Splitted(raw);
    if k: nat :| k < |lines| && !NoBreak(SectionAt(Kinds(lines), k), Kinds(lines)[k], m) {
      BreakIsLost(raw, m, k);
    } else {
      SplitIsWell(raw);
      EditedIsPhysical(lines, m);
      SplitAfterJoin(EditedLines(lines, m));
      EditedInStep(lines, m);
      SortedInStep(FileEntries(Kinds(lines)), FileEntries(Kinds(ReEdited(lines, m))), m);
    }
  }
}
