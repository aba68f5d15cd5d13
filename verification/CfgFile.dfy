/** How a BepInEx .cfg file is read, line by line: internal/mods/cfg.go:75-147. */
module CfgFile {
  import opened Ascii
  import opened CfgLines
  import opened CfgSyntax
  import opened SectionSort
  import opened Wrappers

  datatype Bounds = Bounds(min: string, max: string)

  datatype Meta = Meta(desc: seq<string>, kind: string, default: string, acceptable: seq<string>, bounds: Option<Bounds>)

  datatype Entry = Entry(section: string, key: string, value: string, description: string, kind: string,
                         default: string, acceptable: seq<string>, bounds: Option<Bounds>)

  datatype Parse = Parse(section: string, pending: Meta, entries: seq<Entry>)

  const SETTING_TYPE := "# Setting type:"
  const DEFAULT_VALUE := "# Default value:"
  const ACCEPT_VALUES := "# Acceptable values:"
  const ACCEPT_RANGE := "# Acceptable value range:"

  const NO_META := Meta([], "", "", [], None)

  function SectionName(e: Entry): string {
    e.section
  }

  /** The map key both passes use for a section and a key. */
  function Combined(section: string, key: string): string {
    section + ['\0'] + key
  }

  function KeyOf(e: Entry): string {
    Combined(e.section, e.key)
  }

  function SkipNonWs(s: string, i: nat): (j: nat)
    requires i <= |s|
    ensures i <= j <= |s|
    decreases |s| - i
  {
    if i < |s| && !IsWs(s[i]) then SkipNonWs(s, i + 1) else i
  }

  /** rangePattern matched at position i: from, a word, to, a word, in any letter case */
  function RangeAt(s: string, i: nat): Option<Bounds>
    requires i <= |s|
  {
    if i + 4 > |s| || ToLower(s[i..i + 4]) != "from" then None
    else
      var a := SkipWs(s, i + 4);
      var b := SkipNonWs(s, a);
      var c := SkipWs(s, b);
      if a == i + 4 || b == a || c == b || c + 2 > |s| || ToLower(s[c..c + 2]) != "to" then None
      else
        var d := SkipWs(s, c + 2);
        var e := SkipNonWs(s, d);
        if d == c + 2 || e == d then None else Some(Bounds(s[a..b], s[d..e]))
  }

  /** The leftmost match of rangePattern. */
  function FirstRange(s: string, i: nat): Option<Bounds>
    requires i <= |s|
    decreases |s| - i
  {
    if RangeAt(s, i).Some? || i == |s| then RangeAt(s, i) else FirstRange(s, i + 1)
  }

  function NonEmptyTrimmed(parts: seq<string>): seq<string> {
    if parts == [] then []
    else
      var front, v := NonEmptyTrimmed(parts[..|parts| - 1]), TrimSpace(parts[|parts| - 1]);
      if v != "" then front + [v] else front
  }

  function After(trimmed: string, prefix: string): string
    requires HasPrefix(trimmed, prefix)
  {
    TrimSpace(trimmed[|prefix|..])
  }

  /** What a comment is about; a range counts only if it can be read. */
  datatype Topic = Description | SettingType | Default | Values | Range

  function Mark(topic: Topic): string {
    match topic
    case Description => "##"
    case SettingType => SETTING_TYPE
    case Default => DEFAULT_VALUE
    case Values => ACCEPT_VALUES
    case Range => ACCEPT_RANGE
  }

  predicate IsAbout(trimmed: string, topic: Topic) {
    HasPrefix(trimmed, Mark(topic)) && (topic == Range ==> FirstRange(trimmed, 0).Some?)
  }

  function ListedValues(trimmed: string): seq<string>
    requires IsAbout(trimmed, Values)
  {
    NonEmptyTrimmed(SplitOn(After(trimmed, ACCEPT_VALUES), ','))
  }

  /** The pending metadata after a comment, field by field. */
  function Noted(m: Meta, t: string): Meta {
    Meta(
      if IsAbout(t, Description) then m.desc + [After(t, "##")] else m.desc,
      if IsAbout(t, SettingType) then After(t, SETTING_TYPE) else m.kind,
      if IsAbout(t, Default) then After(t, DEFAULT_VALUE) else m.default,
      if IsAbout(t, Values) then ListedValues(t) else m.acceptable,
      if IsAbout(t, Range) then FirstRange(t, 0) else m.bounds)
  }

  /** No mark begins another one, so a comment is about one thing at most. */
  lemma OneTopic(t: string, a: Topic, b: Topic)
    requires HasPrefix(t, Mark(a)) && HasPrefix(t, Mark(b))
    ensures a == b
  {
    assert |Mark(a)| > 2 ==> t[2] == Mark(a)[2];
    assert |Mark(b)| > 2 ==> t[2] == Mark(b)[2];
    assert t[1] == Mark(a)[1] == Mark(b)[1];
    assert |Mark(a)| > 18 && |Mark(b)| > 18 ==> t[18] == Mark(a)[18] == Mark(b)[18];
  }

  /** A comment about one topic changes the field for it. */
  lemma NotedOnly(m: Meta, t: string, topic: Topic)
    requires HasPrefix(t, Mark(topic))
    ensures Noted(m, t) == match topic
      case Description => m.(desc := m.desc + [After(t, "##")])
      case SettingType => m.(kind := After(t, SETTING_TYPE))
      case Default => m.(default := After(t, DEFAULT_VALUE))
      case Values => m.(acceptable := ListedValues(t))
      case Range => if FirstRange(t, 0).Some? then m.(bounds := FirstRange(t, 0)) else m
  {
    forall other | IsAbout(t, other) ensures other == topic {
      OneTopic(t, topic, other);
    }
  }

  function MakeEntry(section: string, m: Meta, s: Setting): Entry {
    Entry(section, TrimSpace(s.key), s.value, JoinOn(m.desc, ' '), m.kind, m.default, m.acceptable, m.bounds)
  }

  /** What one line does to the parser. */
  function Step(p: Parse, kind: Kind): Parse {
    match kind
    case Section(name) => Parse(name, NO_META, p.entries)
    case Comment(trimmed) => p.(pending := Noted(p.pending, trimmed))
    case Ignored => p
    case Value(s) => Parse(p.section, NO_META, p.entries + [MakeEntry(p.section, p.pending, s)])
  }

  /** What the parser holds before line n. */
  function StateAt(kinds: seq<Kind>, n: nat): Parse
    requires n <= |kinds|
  {
    if n == 0 then Parse("", NO_META, []) else Step(StateAt(kinds, n - 1), kinds[n - 1])
  }

  function Kinds(lines: seq<Line>): (r: seq<Kind>)
    ensures |r| == |lines|
  {
    seq(|lines|, k requires 0 <= k < |lines| => KindOf(lines[k].text))
  }

  function FileEntries(kinds: seq<Kind>): seq<Entry> {
    StateAt(kinds, |kinds|).entries
  }

  // ------------------------------------------------------------ what an entry says, read off the lines

  /** The description lines of [s, n), in order. */
  function Descriptions(kinds: seq<Kind>, s: nat, n: nat): seq<string>
    requires n <= |kinds|
  {
    if n <= s then []
    else
      var front, kind := Descriptions(kinds, s, n - 1), kinds[n - 1];
      if kind.Comment? && IsAbout(kind.trimmed, Description) then front + [After(kind.trimmed, "##")] else front
  }

  /** What comments say on a topic, descriptions aside. */
  datatype Answer = Word(text: string) | Words(list: seq<string>) | Interval(bounds: Option<Bounds>)

  function AnswerIn(trimmed: string, topic: Topic): Answer
    requires IsAbout(trimmed, topic) && topic != Description
  {
    match topic
    case SettingType => Word(After(trimmed, SETTING_TYPE))
    case Default => Word(After(trimmed, DEFAULT_VALUE))
    case Values => Words(ListedValues(trimmed))
    case Range => Interval(FirstRange(trimmed, 0))
  }

  function NoAnswer(topic: Topic): Answer {
    if topic == Values then Words([]) else if topic == Range then Interval(None) else Word("")
  }

  function SaidBy(kind: Kind, topic: Topic): Option<Answer>
    requires topic != Description
  {
    if kind.Comment? && IsAbout(kind.trimmed, topic) then Some(AnswerIn(kind.trimmed, topic)) else None
  }

  function Said(kinds: seq<Kind>, topic: Topic): (r: seq<Option<Answer>>)
    requires topic != Description
    ensures |r| == |kinds|
  {
    seq(|kinds|, k requires 0 <= k < |kinds| => SaidBy(kinds[k], topic))
  }

  /** The last answer in [s, n), none if there is no answer. */
  function Last<T>(answers: seq<Option<T>>, s: nat, n: nat, none: T): T
    requires n <= |answers|
  {
    if n <= s then none else if answers[n - 1].Some? then answers[n - 1].value else Last(answers, s, n - 1, none)
  }

  /** a is what the last line of [s, n) about the topic says. */
  predicate IsAnswer(kinds: seq<Kind>, s: nat, n: nat, topic: Topic, a: Answer)
    requires n <= |kinds| && topic != Description
  {
    a == Last(Said(kinds, topic), s, n, NoAnswer(topic))
  }

  predicate Resets(kind: Kind) {
    kind.Section? || kind.Value?
  }

  /** The first line after the last header or setting before line n. */
  function BlockStart(kinds: seq<Kind>, n: nat): (s: nat)
    requires n <= |kinds|
    ensures s <= n && (s > 0 ==> Resets(kinds[s - 1])) && forall k | s <= k < n :: !Resets(kinds[k])
  {
    if n == 0 || Resets(kinds[n - 1]) then n else BlockStart(kinds, n - 1)
  }

  /** The name of the last header before line n, "" if there is none. */
  ghost predicate InSection(kinds: seq<Kind>, n: nat, section: string)
    requires n <= |kinds|
  {
    && (forall h | 0 <= h < n && kinds[h].Section? && (forall j | h < j < n :: !kinds[j].Section?) :: section == kinds[h].name)
    && ((forall h | 0 <= h < n :: !kinds[h].Section?) ==> section == "")
  }

  /** e is what setting line n says under its header and with the comments directly before it. */
  ghost predicate IsEntryOf(kinds: seq<Kind>, n: nat, e: Entry) {
    && n < |kinds| && kinds[n].Value?
    && e.key == TrimSpace(kinds[n].setting.key) && e.value == kinds[n].setting.value
    && InSection(kinds, n, e.section)
    && var s := BlockStart(kinds, n);
       && e.description == JoinOn(Descriptions(kinds, s, n), ' ')
       && IsAnswer(kinds, s, n, SettingType, Word(e.kind)) && IsAnswer(kinds, s, n, Default, Word(e.default))
       && IsAnswer(kinds, s, n, Values, Words(e.acceptable)) && IsAnswer(kinds, s, n, Range, Interval(e.bounds))
  }

  function SettingsBefore(kinds: seq<Kind>, n: nat): (c: nat)
    requires n <= |kinds|
    ensures c <= n
  {
    if n == 0 then 0 else SettingsBefore(kinds, n - 1) + if kinds[n - 1].Value? then 1 else 0
  }

  /** One entry for each setting line, in their order. */
  ghost predicate AreEntriesOf(kinds: seq<Kind>, entries: seq<Entry>) {
    && |entries| == SettingsBefore(kinds, |kinds|)
    && forall n: nat {:trigger SettingsBefore(kinds, n)} | n < |kinds| && kinds[n].Value? ::
         SettingsBefore(kinds, n) < |entries| && IsEntryOf(kinds, n, entries[SettingsBefore(kinds, n)])
  }

  // ------------------------------------------------------------ the whole file

  /** The entries of a file: in file order, then sections in natural order. */
  function Parsed(raw: string): seq<Entry> {
    StableSorted(FileEntries(Kinds(Splitted(raw))), SectionName)
  }
}
