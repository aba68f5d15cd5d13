/** Consequences for callers of the .cfg editor: what changes, what a clean request gives back, and when writing back is a no-op. */
module CfgWriteBack {
  import opened Ascii
  import opened CfgEditor
  import opened CfgFile
  import opened CfgKeys
  import opened CfgLaws
  import opened CfgLines
  import opened CfgSettings
  import opened CfgSyntax
  import opened LineCut
  import opened SectionSort
  import opened Wrappers

  // ------------------------------------------------------------ which value wins

  lemma {:induction false} PendingKeys(updates: seq<Update>, key: string)
    ensures key in Pending(updates) <==> exists u :: u in updates && UpdateKey(u) == key
    ensures key in Pending(updates) ==> exists u :: u in updates && UpdateKey(u) == key && Pending(updates)[key] == u.value
  {
    if updates != [] {
      var front, last := updates[..|updates| - 1], updates[|updates| - 1];
      PendingKeys(front, key);
      assert updates == front + [last];
    }
  }

  /** Among updates of one key the last wins. */
  lemma {:induction false} LastUpdateWins(updates: seq<Update>, i: nat)
    requires i < |updates| && forall j | i < j < |updates| :: UpdateKey(updates[j]) != UpdateKey(updates[i])
    ensures UpdateKey(updates[i]) in Pending(updates) && Pending(updates)[UpdateKey(updates[i])] == updates[i].value
  {
    if i < |updates| - 1 {
      LastUpdateWins(updates[..|updates| - 1], i);
    }
  }

  /** So of two different values for one key the first is lost. */
  lemma FirstUpdateIsLost(section: string, key: string, first: string, second: string)
    requires first != second
    ensures var updates := [Update(section, key, first), Update(section, key, second)];
      Pending(updates) == map[Combined(section, key) := second] && UpdateKey(updates[0]) == Combined(section, key)
  {
    var updates := [Update(section, key, first), Update(section, key, second)];
    assert updates[..1] == [Update(section, key, first)] && updates[..1][..0] == [];
    assert Pending(updates[..1]) == map[Combined(section, key) := first];
  }

  // ------------------------------------------------------------ what an edit leaves alone

  /** The part of a setting line before its value. */
  function Head(s: Setting): string {
    s.indent + s.key + s.before + "=" + s.after
  }

  /** Terminators and lines without a new value stay as they are; in the others only the value changes. */
  lemma OnlyValuesChange(lines: seq<Line>, k: nat, m: map<string, string>)
    requires k < |lines|
    ensures var kind, l := KindOf(lines[k].text), EditedLines(lines, m)[k];
      match NewValue(SectionAt(Kinds(lines), k), kind, m)
      case None => l == lines[k]
      case Some(v) => kind.Value? && lines[k] == Line(Head(kind.setting) + kind.setting.value, l.term)
                      && l.text == Head(kind.setting) + v
  {
    if KindOf(lines[k].text).Value? {
      ValuePrints(lines[k].text);
    }
  }

  // ------------------------------------------------------------ clean requests

  predicate IsClean(v: string) {
    '\n' !in v && '\r' !in v && StartsNonWs(v)
  }

  /** Values without line breaks or leading whitespace read back, in every file. */
  lemma CleanUpdatesReadBack(raw: string, updates: seq<Update>)
    requires forall u | u in updates :: IsClean(u.value)
    ensures Parsed(Edited(raw, Pending(updates))) == Mapped(Parsed(raw), Updater(Pending(updates)))
  {
    var m := Pending(updates);
    var kinds, terms := Kinds(Splitted(raw)), Terms(Splitted(raw));
    forall k: nat | k < |kinds| ensures LineOk(kinds, terms, k, m) {
      var v := NewValue(SectionAt(kinds, k), kinds[k], m);
      if v.Some? {
        PendingKeys(updates, Combined(SectionAt(kinds, k), TrimSpace(kinds[k].setting.key)));
      }
    }
    ReadsBackExactlyWhen(raw, m);
  }

  // ------------------------------------------------------------ which entry takes which value

  /** Update j is the last one for the entry. */
  ghost predicate IsLastFor(updates: seq<Update>, j: nat, e: Entry) {
    && j < |updates| && IsFor(updates[j].section, updates[j].key, e)
    && forall i | j < i < |updates| :: !IsFor(updates[i].section, updates[i].key, e)
  }

  lemma PendingFor(updates: seq<Update>, e: Entry)
    ensures (forall u | u in updates :: !IsFor(u.section, u.key, e)) ==> KeyOf(e) !in Pending(updates)
    ensures forall j: nat | IsLastFor(updates, j, e) ::
      KeyOf(e) in Pending(updates) && Pending(updates)[KeyOf(e)] == updates[j].value
  {
    forall u: Update ensures UpdateKey(u) == KeyOf(e) <==> IsFor(u.section, u.key, e) {
      KeyIsFor(u.section, u.key, e);
    }
    PendingKeys(updates, KeyOf(e));
    forall j: nat | IsLastFor(updates, j, e)
      ensures KeyOf(e) in Pending(updates) && Pending(updates)[KeyOf(e)] == updates[j].value
    {
      LastUpdateWins(updates, j);
    }
  }

  /** After a clean edit every entry is there again, with the value of the last update for it, or its own. */
  lemma EntryAfter(raw: string, updates: seq<Update>, i: nat)
    requires (forall u | u in updates :: IsClean(u.value)) && i < |Parsed(raw)|
    ensures |Parsed(Edited(raw, Pending(updates)))| == |Parsed(raw)|
    ensures var e, f := Parsed(raw)[i], Parsed(Edited(raw, Pending(updates)))[i];
      && ((forall u | u in updates :: !IsFor(u.section, u.key, e)) ==> f == e)
      && (forall j: nat | IsLastFor(updates, j, e) :: f == e.(value := updates[j].value))
  {
    CleanUpdatesReadBack(raw, updates);
    PendingFor(updates, Parsed(raw)[i]);
  }

  /** Where sections have no NUL, an update is for the entries of its own section and key and for no others. */
  lemma OnlyItsOwn(u: Update, e: Entry)
    requires '\0' !in u.section && '\0' !in e.section
    ensures IsFor(u.section, u.key, e) <==> u.section == e.section && u.key == e.key
  {
    NoNulNoClash(u.section, u.key, e.section, e.key);
  }

  predicate IsSame(u: Update, e: Entry) {
    u.section == e.section && u.key == e.key
  }

  /** So an entry changes only by an update of its own section and key, and takes the last of them. */
  lemma EntryTakesItsOwn(raw: string, updates: seq<Update>, i: nat)
    requires (forall u | u in updates :: IsClean(u.value) && '\0' !in u.section)
    requires i < |Parsed(raw)| && '\0' !in Parsed(raw)[i].section
    ensures |Parsed(Edited(raw, Pending(updates)))| == |Parsed(raw)|
    ensures var e, f := Parsed(raw)[i], Parsed(Edited(raw, Pending(updates)))[i];
      && ((forall u | u in updates :: !IsSame(u, e)) ==> f == e)
      && (forall j: nat | j < |updates| && IsSame(updates[j], e) && (forall k | j < k < |updates| :: !IsSame(updates[k], e)) ::
            f == e.(value := updates[j].value))
  {
    var e := Parsed(raw)[i];
    forall u | u in updates ensures IsFor(u.section, u.key, e) <==> IsSame(u, e) {
      OnlyItsOwn(u, e);
    }
    EntryAfter(raw, updates, i);
    forall j: nat | j < |updates| && IsSame(updates[j], e) && (forall k | j < k < |updates| :: !IsSame(updates[k], e))
      ensures IsLastFor(updates, j, e)
    {
      assert forall k | j <= k < |updates| :: updates[k] in updates;
    }
  }

  // ------------------------------------------------------------ writing back what is there

  function AsUpdates(entries: seq<Entry>): (r: seq<Update>)
    ensures |r| == |entries|
  {
    seq(|entries|, k requires 0 <= k < |entries| => Update(entries[k].section, entries[k].key, entries[k].value))
  }

  ghost predicate SameKeySameValue(entries: seq<Entry>) {
    forall e, f | e in entries && f in entries && KeyOf(e) == KeyOf(f) :: e.value == f.value
  }

  /** The value an edit writes into a line is the one it has. */
  ghost predicate WritesSame(kinds: seq<Kind>, k: nat, m: map<string, string>)
    requires k < |kinds|
  {
    NewValue(SectionAt(kinds, k), kinds[k], m).Some? ==>
      NewValue(SectionAt(kinds, k), kinds[k], m).value == kinds[k].setting.value
  }

  lemma JoinedInjective(a: seq<Line>, b: seq<Line>)
    requires Physical(a) && Physical(b) && Terms(a) == Terms(b) && Joined(a) == Joined(b)
    ensures a == b
  {
    SplitAfterJoin(a);
    SplitAfterJoin(b);
    assert |a| == |Terms(a)| == |Terms(b)| == |b|;
    forall k | 0 <= k < |a| ensures a[k] == b[k] {
      assert a[k].term == Terms(a)[k] == Terms(b)[k] == b[k].term;
      assert Reread(a[k]) == RereadAll(a)[k] == RereadAll(b)[k] == Reread(b[k]);
      RereadInjective(a[k], b[k]);
    }
  }

  lemma RereadInjective(a: Line, b: Line)
    requires a.term == b.term && Reread(a) == Reread(b)
    ensures a == b
  {
    if Terminated(a) {
      RawsRoundTrip([ToRaw(a), ToRaw(b)]);
      var raws := FromRaws([ToRaw(a), ToRaw(b)]);
      assert ToRaw(a) == ToRaws(raws)[0] == ToRaw(raws[0]) && ToRaw(b) == ToRaws(raws)[1] == ToRaw(raws[1]);
      if a.term == "\r\n" {
        assert (a.text + "\r")[..|a.text|] == a.text && (b.text + "\r")[..|b.text|] == b.text;
      }
    }
  }

  lemma SameLine(lines: seq<Line>, k: nat, m: map<string, string>)
    requires k < |lines|
    ensures EditedLines(lines, m)[k] == lines[k] <==> WritesSame(Kinds(lines), k, m)
  {
    OnlyValuesChange(lines, k, m);
    var kind := KindOf(lines[k].text);
    if NewValue(SectionAt(Kinds(lines), k), kind, m).Some? {
      var v := NewValue(SectionAt(Kinds(lines), k), kind, m).value;
      SamePrefix(Head(kind.setting), kind.setting.value, v);
    }
  }

  lemma SamePrefix(p: string, a: string, b: string)
    ensures p + a == p + b <==> a == b
  {
    assert (p + a)[|p|..] == a && (p + b)[|p|..] == b;
  }

  /** For values without line breaks, an edit leaves the file as it is exactly when it writes what is there. */
  lemma EditIsIdentity(raw: string, m: map<string, string>)
    requires NoBreaks(Kinds(Splitted(raw)), m)
    ensures Edited(raw, m) == raw <==> AllWriteSame(Kinds(Splitted(raw)), m)
  {
    var lines := Splitted(raw);
    var edited := EditedLines(lines, m);
    JoinInvertsSplit(raw);
    forall k: nat | k < |lines| ensures (edited[k] == lines[k] <==> WritesSame(Kinds(lines), k, m)) {
      SameLine(lines, k, m);
    }
    if AllWriteSame(Kinds(lines), m) {
      assert edited == lines;
    }
    if Edited(raw, m) == raw {
      SplitIsWell(raw);
      EditedIsPhysical(lines, m);
      TermsStay(lines, m);
      JoinedInjective(edited, lines);
    }
  }

  lemma TermsStay(lines: seq<Line>, m: map<string, string>)
    ensures Terms(EditedLines(lines, m)) == Terms(lines)
  {
    forall k: nat | k < |lines| ensures EditedLines(lines, m)[k].term == lines[k].term {
      OnlyValuesChange(lines, k, m);
    }
  }

  /** What is written back under a key is the value of some entry with that key. */
  lemma WrittenIsEntry(entries: seq<Entry>, key: string)
    requires key in Pending(AsUpdates(entries))
    ensures exists e :: e in entries && KeyOf(e) == key && Pending(AsUpdates(entries))[key] == e.value
  {
    PendingKeys(AsUpdates(entries), key);
    var u :| u in AsUpdates(entries) && UpdateKey(u) == key && Pending(AsUpdates(entries))[key] == u.value;
    var i :| 0 <= i < |entries| && AsUpdates(entries)[i] == u;
    assert entries[i] in entries && KeyOf(entries[i]) == key;
  }

  lemma EntryIsWritten(entries: seq<Entry>, e: Entry)
    requires e in entries
    ensures KeyOf(e) in Pending(AsUpdates(entries))
  {
    var i :| 0 <= i < |entries| && entries[i] == e;
    assert AsUpdates(entries)[i] in AsUpdates(entries) && UpdateKey(AsUpdates(entries)[i]) == KeyOf(e);
    PendingKeys(AsUpdates(entries), KeyOf(e));
  }

  ghost predicate AllWriteSame(kinds: seq<Kind>, m: map<string, string>) {
    forall k: nat {:trigger WritesSame(kinds, k, m)} | k < |kinds| :: WritesSame(kinds, k, m)
  }

  lemma OneValueWritesSame(kinds: seq<Kind>, entries: seq<Entry>)
    requires forall e :: e in entries <==> e in FileEntries(kinds)
    requires SameKeySameValue(entries)
    ensures AllWriteSame(kinds, Pending(AsUpdates(entries)))
  {
    var m := Pending(AsUpdates(entries));
    forall k: nat | k < |kinds| ensures WritesSame(kinds, k, m) {
      if NewValue(SectionAt(kinds, k), kinds[k], m).Some? {
        LineIsEntry(kinds, k);
        WrittenIsEntry(entries, KeyOf(EntryAt(kinds, k)));
      }
    }
  }

  lemma WritesSameOneValue(kinds: seq<Kind>, entries: seq<Entry>)
    requires forall e :: e in entries <==> e in FileEntries(kinds)
    requires AllWriteSame(kinds, Pending(AsUpdates(entries)))
    ensures SameKeySameValue(entries)
  {
    var m := Pending(AsUpdates(entries));
    forall e | e in entries ensures KeyOf(e) in m && m[KeyOf(e)] == e.value {
      EntryIsWritten(entries, e);
      EntryIsLine(kinds, |kinds|, e);
      var k: nat :| k < |kinds| && kinds[k].Value? && EntryAt(kinds, k) == e;
      assert WritesSame(kinds, k, m);
    }
    forall e, f | e in entries && f in entries && KeyOf(e) == KeyOf(f) ensures e.value == f.value {
      assert m[KeyOf(e)] == e.value && m[KeyOf(f)] == f.value;
    }
  }

  lemma WrittenHasNoBreak(raw: string)
    ensures NoBreaks(Kinds(Splitted(raw)), Pending(AsUpdates(Parsed(raw))))
  {
    var kinds, m := Kinds(Splitted(raw)), Pending(AsUpdates(Parsed(raw)));
    ParsedIsClean(raw);
    forall k: nat | k < |kinds| ensures NoBreak(SectionAt(kinds, k), kinds[k], m) {
      if NewValue(SectionAt(kinds, k), kinds[k], m).Some? {
        WrittenIsEntry(Parsed(raw), Combined(SectionAt(kinds, k), TrimSpace(kinds[k].setting.key)));
      }
    }
  }

  /** Writing back every current value reproduces the file, byte for byte, exactly when no key has two values. */
  lemma WriteBackIsIdentity(raw: string)
    ensures Edited(raw, Pending(AsUpdates(Parsed(raw)))) == raw <==> SameKeySameValue(Parsed(raw))
  {
    var lines := Splitted(raw);
    WrittenHasNoBreak(raw);
    EditIsIdentity(raw, Pending(AsUpdates(Parsed(raw))));
    SortMembers(FileEntries(Kinds(lines)), SectionName);
    if SameKeySameValue(Parsed(raw)) {
      OneValueWritesSame(Kinds(lines), Parsed(raw));
    }
    if AllWriteSame(Kinds(lines), Pending(AsUpdates(Parsed(raw)))) {
      WritesSameOneValue(Kinds(lines), Parsed(raw));
    }
  }
}
