/** The parser of .cfg files gives each setting its header and the comments directly before it: internal/mods/cfg.go:75-147. */
module CfgMetadata {
  import opened Ascii
  import opened CfgFile
  import opened CfgLines
  import opened CfgSyntax
  import opened Wrappers

  /** The last answer is one that no other follows. */
  lemma {:induction false} LastIsLast<T>(answers: seq<Option<T>>, s: nat, n: nat, none: T, k: nat)
    requires s <= k < n <= |answers| && answers[k].Some? && forall j | k < j < n :: answers[j].None?
    ensures Last(answers, s, n, none) == answers[k].value
  {
    if k < n - 1 {
      LastIsLast(answers, s, n - 1, none, k);
    }
  }

  lemma {:induction false} NoneIsNone<T>(answers: seq<Option<T>>, s: nat, n: nat, none: T)
    requires n <= |answers| && forall j | s <= j < n :: answers[j].None?
    ensures Last(answers, s, n, none) == none
  {
    if s < n {
      NoneIsNone(answers, s, n - 1, none);
    }
  }

  lemma AnswerSnoc(kinds: seq<Kind>, s: nat, n: nat, topic: Topic, a: Answer, b: Answer)
    requires s < n <= |kinds| && topic != Description && IsAnswer(kinds, s, n - 1, topic, a)
    requires b == if SaidBy(kinds[n - 1], topic).Some? then SaidBy(kinds[n - 1], topic).value else a
    ensures IsAnswer(kinds, s, n, topic, b)
  {
    assert Said(kinds, topic)[n - 1] == SaidBy(kinds[n - 1], topic);
  }

  // ------------------------------------------------------------ the pending metadata

  function Held(m: Meta, topic: Topic): Answer
    requires topic != Description
  {
    match topic
    case SettingType => Word(m.kind)
    case Default => Word(m.default)
    case Values => Words(m.acceptable)
    case Range => Interval(m.bounds)
  }

  ghost predicate Holds(kinds: seq<Kind>, s: nat, n: nat, m: Meta, topic: Topic)
    requires n <= |kinds| && topic != Description
  {
    IsAnswer(kinds, s, n, topic, Held(m, topic))
  }

  /** The pending metadata is what the lines of the block say. */
  ghost predicate IsPending(kinds: seq<Kind>, s: nat, n: nat, m: Meta)
    requires n <= |kinds|
  {
    && m.desc == Descriptions(kinds, s, n)
    && forall topic {:trigger Holds(kinds, s, n, m, topic)} | topic != Description :: Holds(kinds, s, n, m, topic)
  }

  function Pended(m: Meta, kind: Kind): Meta {
    if kind.Comment? then Noted(m, kind.trimmed) else m
  }

  lemma HeldAfter(m: Meta, kind: Kind, topic: Topic)
    requires topic != Description
    ensures Held(Pended(m, kind), topic) == if SaidBy(kind, topic).Some? then SaidBy(kind, topic).value else Held(m, topic)
  {
  }

  lemma HoldsSnoc(kinds: seq<Kind>, s: nat, n: nat, m: Meta, topic: Topic)
    requires s < n <= |kinds| && topic != Description && Holds(kinds, s, n - 1, m, topic)
    ensures Holds(kinds, s, n, Pended(m, kinds[n - 1]), topic)
  {
    HeldAfter(m, kinds[n - 1], topic);
    AnswerSnoc(kinds, s, n, topic, Held(m, topic), Held(Pended(m, kinds[n - 1]), topic));
  }

  lemma PendingSnoc(kinds: seq<Kind>, s: nat, n: nat, m: Meta)
    requires s < n <= |kinds| && IsPending(kinds, s, n - 1, m)
    ensures IsPending(kinds, s, n, Pended(m, kinds[n - 1]))
  {
    var p := Pended(m, kinds[n - 1]);
    forall topic {:trigger Holds(kinds, s, n, p, topic)} | topic != Description ensures Holds(kinds, s, n, p, topic) {
      HoldsSnoc(kinds, s, n, m, topic);
    }
  }

  lemma NothingPending(kinds: seq<Kind>, n: nat)
    requires n <= |kinds|
    ensures IsPending(kinds, n, n, NO_META)
  {
    forall topic | topic != Description ensures Holds(kinds, n, n, NO_META, topic) {
      assert Held(NO_META, topic) == NoAnswer(topic);
    }
  }

  lemma {:induction false} PendingIs(kinds: seq<Kind>, n: nat)
    requires n <= |kinds|
    ensures IsPending(kinds, BlockStart(kinds, n), n, StateAt(kinds, n).pending)
  {
    if n == 0 || Resets(kinds[n - 1]) {
      NothingPending(kinds, n);
    } else {
      PendingIs(kinds, n - 1);
      PendingSnoc(kinds, BlockStart(kinds, n), n, StateAt(kinds, n - 1).pending);
      assert StateAt(kinds, n).pending == Pended(StateAt(kinds, n - 1).pending, kinds[n - 1]);
    }
  }

  lemma {:induction false} SectionIs(kinds: seq<Kind>, n: nat)
    requires n <= |kinds|
    ensures InSection(kinds, n, StateAt(kinds, n).section)
  {
    if n > 0 {
      SectionIs(kinds, n - 1);
    }
  }

  // ------------------------------------------------------------ the entry of a line

  lemma {:induction false} OnePerSetting(kinds: seq<Kind>, n: nat)
    requires n <= |kinds|
    ensures |StateAt(kinds, n).entries| == SettingsBefore(kinds, n)
  {
    if n > 0 {
      OnePerSetting(kinds, n - 1);
    }
  }

  lemma {:induction false} EntriesStay(kinds: seq<Kind>, m: nat, n: nat)
    requires m <= n <= |kinds|
    ensures StateAt(kinds, m).entries <= StateAt(kinds, n).entries
  {
    if m < n {
      EntriesStay(kinds, m, n - 1);
    }
  }

  /** The entry of a setting line has the section of the last header before it and what the comments of its block say. */
  lemma EntryOfLine(kinds: seq<Kind>, n: nat)
    requires n < |kinds| && kinds[n].Value?
    ensures SettingsBefore(kinds, n) < |FileEntries(kinds)|
    ensures IsEntryOf(kinds, n, FileEntries(kinds)[SettingsBefore(kinds, n)])
  {
    OnePerSetting(kinds, n);
    EntriesStay(kinds, n + 1, |kinds|);
    SectionIs(kinds, n);
    PendingIs(kinds, n);
    var before, after, s := StateAt(kinds, n), StateAt(kinds, n + 1), BlockStart(kinds, n);
    assert Holds(kinds, s, n, before.pending, SettingType) && Holds(kinds, s, n, before.pending, Default);
    assert Holds(kinds, s, n, before.pending, Values) && Holds(kinds, s, n, before.pending, Range);
    assert after.entries[|before.entries|] == MakeEntry(before.section, before.pending, kinds[n].setting);
  }

  lemma EntriesOfFile(kinds: seq<Kind>)
    ensures AreEntriesOf(kinds, FileEntries(kinds))
  {
    OnePerSetting(kinds, |kinds|);
    forall n: nat | n < |kinds| && kinds[n].Value?
      ensures SettingsBefore(kinds, n) < |FileEntries(kinds)| && IsEntryOf(kinds, n, FileEntries(kinds)[SettingsBefore(kinds, n)])
    {
      EntryOfLine(kinds, n);
    }
  }
}
