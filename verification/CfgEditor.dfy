/** Parsing BepInEx .cfg files and rewriting values in place, internal/mods/cfg.go:75-263. */
module CfgEditor {
  import opened Ascii
  import opened CfgFile
  import opened CfgKeys
  import opened CfgLines
  import opened CfgMetadata
  import opened CfgSyntax
  import opened SectionSort
  import opened Wrappers

  datatype Update = Update(section: string, key: string, value: string)

  datatype Result<T, E> = Ok(value: T) | Err(error: E)

  // ------------------------------------------------------------ specification of the rewriter

  /** The value a line receives, if it is a setting whose key has one. */
  function NewValue(section: string, kind: Kind, m: map<string, string>): Option<string> {
    if !kind.Value? then None
    else
      var k := Combined(section, TrimSpace(kind.setting.key));
      if k in m then Some(m[k]) else None
  }

  function EditLine(section: string, l: Line, m: map<string, string>): Line {
    var kind := KindOf(l.text);
    match NewValue(section, kind, m)
    case None => l
    case Some(v) => l.(text := Print(kind.setting.(value := v)))
  }

  function EditedAt(lines: seq<Line>, k: nat, m: map<string, string>): Line
    requires k < |lines|
  {
    EditLine(StateAt(Kinds(lines), k).section, lines[k], m)
  }

  function EditedLines(lines: seq<Line>, m: map<string, string>): (r: seq<Line>)
    ensures |r| == |lines|
  {
    seq(|lines|, k requires 0 <= k < |lines| => EditedAt(lines, k, m))
  }

  /** The text with the values of m written in. */
  function Edited(raw: string, m: map<string, string>): string {
    Joined(EditedLines(Splitted(raw), m))
  }

  function UpdateKey(u: Update): string {
    Combined(u.section, u.key)
  }

  function Pending(updates: seq<Update>): map<string, string> {
    if updates == [] then map[]
    else
      var u := updates[|updates| - 1];
      Pending(updates[..|updates| - 1])[UpdateKey(u) := u.value]
  }

  ghost predicate IsKnown(u: Update, entries: seq<Entry>) {
    exists e :: e in entries && KeyOf(e) == UpdateKey(u)
  }

  ghost predicate IsForNone(u: Update, entries: seq<Entry>) {
    forall e | e in entries :: !IsFor(u.section, u.key, e)
  }

  lemma KnownIsFor(u: Update, entries: seq<Entry>)
    ensures IsKnown(u, entries) <==> !IsForNone(u, entries)
  {
    forall e ensures UpdateKey(u) == KeyOf(e) <==> IsFor(u.section, u.key, e) {
      KeyIsFor(u.section, u.key, e);
    }
  }

  ghost predicate Unknown(entries: seq<Entry>, updates: seq<Update>, j: nat) {
    j < |updates| && !IsKnown(updates[j], entries)
  }

  // ------------------------------------------------------------ the code

  // cfg.go:100-125
  method NoteComment(pending: Meta, trimmed: string) returns (m: Meta)
    requires HasPrefix(trimmed, "#")
    ensures m == Noted(pending, trimmed)
  {
    m := pending;
    if HasPrefix(trimmed, "##") {
      NotedOnly(pending, trimmed, Description);
      m := m.(desc := m.desc + [TrimSpace(trimmed[2..])]);
    } else if HasPrefix(trimmed, SETTING_TYPE) {
      NotedOnly(pending, trimmed, SettingType);
      m := m.(kind := TrimSpace(trimmed[|SETTING_TYPE|..]));
    } else if HasPrefix(trimmed, DEFAULT_VALUE) {
      NotedOnly(pending, trimmed, Default);
      m := m.(default := TrimSpace(trimmed[|DEFAULT_VALUE|..]));
    } else if HasPrefix(trimmed, ACCEPT_RANGE) {
      NotedOnly(pending, trimmed, Range);
      var r := FirstRange(trimmed, 0);
      if r.Some? {
        m := m.(bounds := r);
      }
    } else if HasPrefix(trimmed, ACCEPT_VALUES) {
      NotedOnly(pending, trimmed, Values);
      var kept := KeepTrimmed(SplitOn(TrimSpace(trimmed[|ACCEPT_VALUES|..]), ','));
      m := m.(acceptable := kept);
    }
  }

  // cfg.go:116-122
  method KeepTrimmed(parts: seq<string>) returns (kept: seq<string>)
    ensures kept == NonEmptyTrimmed(parts)
  {
    kept := [];
    for i := 0 to |parts|
      invariant kept == NonEmptyTrimmed(parts[..i])
    {
      assert parts[..i + 1][..i] == parts[..i];
      var v := TrimSpace(parts[i]);
      if v != "" {
        kept := kept + [v];
      }
    }
    assert parts[..|parts|] == parts;
  }

  // cfg.go:92-143
  method ReadLine(p: Parse, line: string) returns (q: Parse)
    ensures q == Step(p, KindOf(line))
  {
    var trimmed := TrimSpace(line);
    var m := SectionOf(line);
    if m.Some? {
      return Parse(m.value, NO_META, p.entries);
    }
    if HasPrefix(trimmed, "#") {
      var meta := NoteComment(p.pending, trimmed);
      return p.(pending := meta);
    }
    if trimmed == "" {
      return p;
    }
    var s := SettingOf(line);
    if s.None? {
      return p;
    }
    q := Parse(p.section, NO_META, p.entries + [MakeEntry(p.section, p.pending, s.value)]);
  }

  // cfg.go:75-147
  method ParseCfg(raw: string) returns (sorted: seq<Entry>)
    ensures sorted == Parsed(raw)
    ensures exists entries :: AreEntriesOf(Kinds(Splitted(raw)), entries) && sorted == StableSorted(entries, SectionName)
  {
    var lines := SplitLines(raw);
    var p := ReadLines(lines);
    sorted := StableSorted(p.entries, SectionName);
    EntriesOfFile(Kinds(lines));
  }

  // cfg.go:91-144
  method ReadLines(lines: seq<Line>) returns (p: Parse)
    ensures p == StateAt(Kinds(lines), |lines|)
  {
    p := Parse("", NO_META, []);
    for i := 0 to |lines|
      invariant p == StateAt(Kinds(lines), i)
    {
      p := ReadAt(lines, i, p);
    }
  }

  // cfg.go:91-144
  method ReadAt(lines: seq<Line>, i: nat, p: Parse) returns (q: Parse)
    requires i < |lines| && p == StateAt(Kinds(lines), i)
    ensures q == StateAt(Kinds(lines), i + 1)
  {
    q := ReadLine(p, lines[i].text);
  }

  // cfg.go:243-260
  method RewriteLine(section: string, l: Line, pending: map<string, string>) returns (next: string, edited: Line)
    ensures edited == EditLine(section, l, pending)
    ensures next == if SectionOf(l.text).Some? then SectionOf(l.text).value else section
  {
    var m := SectionOf(l.text);
    if m.Some? {
      return m.value, l;
    }
    var trimmed := TrimSpace(l.text);
    if HasPrefix(trimmed, "#") || trimmed == "" {
      return section, l;
    }
    var s := SettingOf(l.text);
    if s.None? {
      return section, l;
    }
    var key := Combined(section, TrimSpace(s.value.key));
    if key !in pending {
      return section, l;
    }
    var head := s.value.indent + s.value.key + s.value.before + "=" + s.value.after;
    return section, l.(text := head + pending[key]);
  }

  // cfg.go:243-260
  method RewriteAt(read: seq<Line>, i: nat, section: string, pending: map<string, string>)
    returns (next: string, edited: Line)
    requires i < |read| && section == StateAt(Kinds(read), i).section
    ensures edited == EditedAt(read, i, pending) && next == StateAt(Kinds(read), i + 1).section
  {
    next, edited := RewriteLine(section, read[i], pending);
  }

  ghost predicate IsEdited(lines: seq<Line>, read: seq<Line>, k: nat, pending: map<string, string>)
    requires k < |read| == |lines|
  {
    lines[k] == EditedAt(read, k, pending)
  }

  /** The first n lines are edited, the others still as read. */
  ghost predicate EditedUpTo(lines: seq<Line>, read: seq<Line>, n: nat, pending: map<string, string>) {
    && |lines| == |read|
    && (forall k: nat {:trigger IsEdited(lines, read, k, pending)} | k < n && k < |read| :: IsEdited(lines, read, k, pending))
    && (forall k | n <= k < |read| :: lines[k] == read[k])
  }

  // cfg.go:242-261
  method RewriteLines(read: seq<Line>, pending: map<string, string>) returns (lines: seq<Line>)
    ensures lines == EditedLines(read, pending)
  {
    lines := read;
    var section := "";
    for i := 0 to |read|
      invariant EditedUpTo(lines, read, i, pending) && section == StateAt(Kinds(read), i).section
    {
      lines, section := RewriteOne(lines, read, i, section, pending);
    }
    AllEdited(lines, read, pending);
  }

  lemma AllEdited(lines: seq<Line>, read: seq<Line>, pending: map<string, string>)
    requires EditedUpTo(lines, read, |read|, pending)
    ensures lines == EditedLines(read, pending)
  {
    forall k: nat | k < |read| ensures lines[k] == EditedLines(read, pending)[k] {
      assert IsEdited(lines, read, k, pending);
    }
  }

  // cfg.go:260
  method RewriteOne(lines: seq<Line>, read: seq<Line>, i: nat, section: string, pending: map<string, string>)
    returns (edited: seq<Line>, next: string)
    requires i < |read| && EditedUpTo(lines, read, i, pending) && section == StateAt(Kinds(read), i).section
    ensures EditedUpTo(edited, read, i + 1, pending) && next == StateAt(Kinds(read), i + 1).section
  {
    var line;
    next, line := RewriteAt(read, i, section, pending);
    edited := lines[i := line];
    forall k: nat {:trigger IsEdited(edited, read, k, pending)} | k < i + 1 ensures IsEdited(edited, read, k, pending) {
      assert k < i ==> IsEdited(lines, read, k, pending);
    }
  }

  // cfg.go:219-235
  method CheckUpdates(entries: seq<Entry>, updates: seq<Update>) returns (fields: seq<nat>, pending: map<string, string>)
    ensures forall j: nat :: j in fields <==> Unknown(entries, updates, j)
    ensures forall a, b | 0 <= a < b < |fields| :: fields[a] < fields[b]
    ensures fields == [] ==> pending == Pending(updates)
  {
    var known: set<string> := {};
    for i := 0 to |entries|
      invariant forall k :: k in known <==> exists e :: e in entries[..i] && KeyOf(e) == k
    {
      assert entries[..i + 1] == entries[..i] + [entries[i]];
      known := known + {KeyOf(entries[i])};
    }
    assert entries[..|entries|] == entries;
    fields, pending := [], map[];
    for i := 0 to |updates|
      invariant forall j: nat :: j in fields <==> j < i && Unknown(entries, updates, j)
      invariant forall a, b | 0 <= a < b < |fields| :: fields[a] < fields[b]
      invariant fields == [] ==> pending == Pending(updates[..i])
    {
      assert updates[..i + 1][..i] == updates[..i];
      var u := updates[i];
      assert forall a | 0 <= a < |fields| :: fields[a] in fields;
      if UpdateKey(u) !in known {
        fields := fields + [i];
      } else {
        pending := pending[UpdateKey(u) := u.value];
      }
    }
    assert updates[..|updates|] == updates;
  }

  // cfg.go:218-263
  method ApplyCfgValues(raw: string, updates: seq<Update>) returns (r: Result<string, seq<nat>>)
    ensures r.Ok? <==> forall u | u in updates :: IsKnown(u, Parsed(raw))
    ensures r.Ok? ==> r.value == Edited(raw, Pending(updates))
    ensures r.Err? ==> forall j: nat :: j in r.error <==> Unknown(Parsed(raw), updates, j)
    ensures r.Err? ==> forall a, b | 0 <= a < b < |r.error| :: r.error[a] < r.error[b]
    // Told by section and key: an update is refused if it is for no entry.
    ensures r.Err? ==> forall j: nat :: j in r.error <==> j < |updates| && IsForNone(updates[j], Parsed(raw))
    ensures r.Ok? <==> forall u | u in updates :: !IsForNone(u, Parsed(raw))
  {
    var parsed := ParseCfg(raw);
    var fields, pending := CheckUpdates(parsed, updates);
    forall u ensures IsKnown(u, parsed) <==> !IsForNone(u, parsed) {
      KnownIsFor(u, parsed);
    }
    if |fields| > 0 {
      assert Unknown(parsed, updates, fields[0]);
      return Err(fields);
    }
    forall u | u in updates ensures IsKnown(u, parsed) {
      var j: nat :| j < |updates| && updates[j] == u;
      assert !Unknown(parsed, updates, j);
    }
    var lines := SplitLines(raw);
    lines := RewriteLines(lines, pending);
    var joined := JoinLines(lines);
    r := Ok(joined);
  }
}
