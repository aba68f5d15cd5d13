/** Which backups retention removes, internal/backup/service.go:495-538. */
module Retention {

  datatype Kind = Manual | Scheduled | PreUpdate | PreRestore | Uploaded

  /** A row of the backups table; created is in nanoseconds. */
  datatype Row = Row(id: nat, kind: Kind, created: int, filename: string)

  const DAY := 24 * 3600 * 1_000_000_000

  /** domain/backup.go:16-18 */
  predicate AutoDeletable(k: Kind) {
    k == Scheduled || k == PreUpdate || k == PreRestore
  }

  /** The configured limits; 0 disables one. */
  datatype Limits = Limits(keepLast: int, keepDays: int)

  const MAX_DURATION := 0x7FFF_FFFF_FFFF_FFFF

  /** time.Time.Sub, which saturates */
  function Age(now: int, created: int): int {
    var d := now - created;
    if d > MAX_DURATION then MAX_DURATION else if d < -MAX_DURATION - 1 then -MAX_DURATION - 1 else d
  }

  /** time.Duration(days)*24*time.Hour, which wraps around at 64 bits */
  function Span(days: int): int {
    var d := (days * DAY) % (2 * MAX_DURATION + 2);
    if d <= MAX_DURATION then d else d - (2 * MAX_DURATION + 2)
  }

  predicate TooOld(l: Limits, now: int, r: Row) {
    l.keepDays > 0 && Age(now, r.created) > Span(l.keepDays)
  }

  /** Whether the i-th newest automatic backup goes. */
  predicate Expired(l: Limits, now: int, i: nat, r: Row) {
    (l.keepLast > 0 && i >= l.keepLast) || TooOld(l, now, r)
  }

  function Autos(rows: seq<Row>): (r: seq<Row>)
    ensures |r| <= |rows|
  {
    if rows == [] then []
    else
      var front, last := Autos(rows[..|rows| - 1]), rows[|rows| - 1];
      if AutoDeletable(last.kind) then front + [last] else front
  }

  function Others(rows: seq<Row>): seq<Row> {
    if rows == [] then []
    else
      var front, last := Others(rows[..|rows| - 1]), rows[|rows| - 1];
      if AutoDeletable(last.kind) then front else front + [last]
  }

  // ------------------------------------------------------------ specification

  /** What stays when every removal succeeds. */
  function Kept(rows: seq<Row>, l: Limits, now: int): seq<Row> {
    if rows == [] then []
    else
      var front, last := rows[..|rows| - 1], rows[|rows| - 1];
      if AutoDeletable(last.kind) && Expired(l, now, |Autos(front)|, last) then Kept(front, l, now)
      else Kept(front, l, now) + [last]
  }

  /** The ids whose rows go when the files in locked and the rows in stuck cannot be removed: the file goes first. */
  function GoneRows(autos: seq<Row>, l: Limits, now: int, locked: set<string>, stuck: set<nat>): set<nat> {
    if autos == [] then {}
    else
      var front, last := autos[..|autos| - 1], autos[|autos| - 1];
      var gone := GoneRows(front, l, now, locked, stuck);
      if Expired(l, now, |front|, last) && last.filename !in locked && last.id !in stuck then gone + {last.id} else gone
  }

  function GoneFiles(autos: seq<Row>, l: Limits, now: int, locked: set<string>): set<string> {
    if autos == [] then {}
    else
      var front, last := autos[..|autos| - 1], autos[|autos| - 1];
      var gone := GoneFiles(front, l, now, locked);
      if Expired(l, now, |front|, last) && last.filename !in locked then gone + {last.filename} else gone
  }

  /** The ids of the automatic backups that go. */
  function Doomed(autos: seq<Row>, l: Limits, now: int): set<nat> {
    GoneRows(autos, l, now, {}, {})
  }

  function Without(rows: seq<Row>, ids: set<nat>): (r: seq<Row>)
    ensures forall x | x in r :: x in rows && x.id !in ids
  {
    if rows == [] then []
    else
      var front, last := Without(rows[..|rows| - 1], ids), rows[|rows| - 1];
      if last.id in ids then front else front + [last]
  }

  ghost predicate DistinctIds(rows: seq<Row>) {
    forall i, j | 0 <= i < j < |rows| :: rows[i].id != rows[j].id
  }

  ghost predicate DistinctFiles(rows: seq<Row>) {
    forall i, j | 0 <= i < j < |rows| :: rows[i].filename != rows[j].filename
  }

  /** ORDER BY created_at DESC, repo.go:105 */
  ghost predicate NewestFirst(rows: seq<Row>) {
    forall i, j | 0 <= i < j < |rows| :: rows[i].created >= rows[j].created
  }

  // ------------------------------------------------------------ the code

  /** The backups of one instance: its rows, newest first, and the files on disk. */
  class BackupStore {
    var rows: seq<Row>
    var files: set<string>

    constructor (rows: seq<Row>, files: set<string>)
      ensures this.rows == rows && this.files == files
    {
      this.rows, this.files := rows, files;
    }

    // service.go:501-538; locked are the files that cannot be removed, stuck the rows that cannot
    method ApplyRetention(l: Limits, now: int, locked: set<string>, stuck: set<nat>)
      modifies this
      ensures rows == Without(old(rows), GoneRows(Autos(old(rows)), l, now, locked, stuck))
      ensures files == old(files) - GoneFiles(Autos(old(rows)), l, now, locked)
      ensures DistinctIds(old(rows)) && locked == {} && stuck == {} ==> rows == Kept(old(rows), l, now)
      ensures DistinctIds(old(rows)) && DistinctFiles(old(rows)) ==>
        forall r | r in Kept(old(rows), l, now) && r.filename in old(files) :: r.filename in files
    {
      ghost var all := rows;
      var autos := CollectAutos(rows);
      RemoveExpired(autos, l, now, locked, stuck);
      Outcome(all, l, now, locked, stuck);
    }

    // service.go:515-537
    method RemoveExpired(autos: seq<Row>, l: Limits, now: int, locked: set<string>, stuck: set<nat>)
      modifies this
      ensures rows == Without(old(rows), GoneRows(autos, l, now, locked, stuck))
      ensures files == old(files) - GoneFiles(autos, l, now, locked)
    {
      ghost var all := rows;
      NothingGone(rows);
      for i := 0 to |autos|
        invariant rows == Without(all, GoneRows(autos[..i], l, now, locked, stuck))
        invariant files == old(files) - GoneFiles(autos[..i], l, now, locked)
      {
        assert autos[..i + 1][..i] == autos[..i];
        var keep := Keeps(l, now, i, autos[i]);
        if keep {
          continue;
        }
        MoreGone(all, GoneRows(autos[..i], l, now, locked, stuck), autos[i].id);
        Remove(autos[i], locked, stuck);
      }
      assert autos[..|autos|] == autos;
    }

    // service.go:517-525
    method Keeps(l: Limits, now: int, i: nat, r: Row) returns (keep: bool)
      ensures keep == !Expired(l, now, i, r)
    {
      keep := true;
      if l.keepLast > 0 && i >= l.keepLast {
        keep := false;
      }
      if l.keepDays > 0 && Age(now, r.created) > Span(l.keepDays) {
        keep := false;
      }
    }

    // service.go:527-536
    method Remove(r: Row, locked: set<string>, stuck: set<nat>)
      modifies this
      ensures files == if r.filename in locked then old(files) else old(files) - {r.filename}
      ensures rows == if r.filename in locked || r.id in stuck then old(rows) else Without(old(rows), {r.id})
    {
      if r.filename in locked {
        return;
      }
      files := files - {r.filename};
      if r.id !in stuck {
        rows := Without(rows, {r.id});
      }
    }

    // service.go:507-512
    method CollectAutos(rows: seq<Row>) returns (autos: seq<Row>)
      ensures autos == Autos(rows)
    {
      autos := [];
      for i := 0 to |rows|
        invariant autos == Autos(rows[..i])
      {
        assert rows[..i + 1][..i] == rows[..i];
        if AutoDeletable(rows[i].kind) {
          autos := autos + [rows[i]];
        }
      }
      assert rows[..|rows|] == rows;
    }
  }

  lemma {:induction false} NothingGone(rows: seq<Row>)
    ensures Without(rows, {}) == rows
  {
    if rows != [] {
      NothingGone(rows[..|rows| - 1]);
    }
  }

  lemma {:induction false} MoreGone(rows: seq<Row>, gone: set<nat>, id: nat)
    ensures Without(Without(rows, gone), {id}) == Without(rows, gone + {id})
  {
    if rows != [] {
      var front, last := rows[..|rows| - 1], rows[|rows| - 1];
      MoreGone(front, gone, id);
      var kept := Without(front, gone);
      assert (kept + [last])[..|kept|] == kept;
    }
  }

  lemma {:induction false} DoomedAreAutos(autos: seq<Row>, l: Limits, now: int, id: nat)
    requires id in Doomed(autos, l, now)
    ensures exists a :: a in autos && a.id == id
  {
    var front, last := autos[..|autos| - 1], autos[|autos| - 1];
    assert last in autos;
    if id in Doomed(front, l, now) {
      DoomedAreAutos(front, l, now, id);
      var a :| a in front && a.id == id;
      assert a in autos;
    }
  }

  lemma Outcome(rows: seq<Row>, l: Limits, now: int, locked: set<string>, stuck: set<nat>)
    ensures DistinctIds(rows) && locked == {} && stuck == {} ==>
      Without(rows, GoneRows(Autos(rows), l, now, locked, stuck)) == Kept(rows, l, now)
    ensures DistinctIds(rows) && DistinctFiles(rows) ==>
      forall r | r in Kept(rows, l, now) :: r.filename !in GoneFiles(Autos(rows), l, now, locked)
  {
    if DistinctIds(rows) {
      RemovalIsKept(rows, l, now);
      if DistinctFiles(rows) {
        forall r | r in Kept(rows, l, now) ensures r.filename !in GoneFiles(Autos(rows), l, now, locked) {
          FileStays(rows, l, now, locked, r);
        }
      }
    }
  }

  /** The file of a row outlives it unless it belongs to an expired backup. */
  lemma {:induction false} FilesOfTheDoomed(autos: seq<Row>, l: Limits, now: int, locked: set<string>, r: Row)
    requires r.id !in Doomed(autos, l, now)
    requires forall a | a in autos && a.filename == r.filename :: a.id == r.id
    ensures r.filename !in GoneFiles(autos, l, now, locked)
  {
    if autos != [] {
      FilesOfTheDoomed(autos[..|autos| - 1], l, now, locked, r);
      assert autos[|autos| - 1] in autos;
    }
  }

  /** A backup that is to stay keeps its file, whatever fails. */
  lemma FileStays(rows: seq<Row>, l: Limits, now: int, locked: set<string>, r: Row)
    requires DistinctIds(rows) && DistinctFiles(rows) && r in Kept(rows, l, now)
    ensures r.filename !in GoneFiles(Autos(rows), l, now, locked)
  {
    RemovalIsKept(rows, l, now);
    AutosAreRows(rows);
    FilesOfTheDoomed(Autos(rows), l, now, locked, r);
  }

  // ------------------------------------------------------------ laws

  lemma {:induction false} AutosAreRows(rows: seq<Row>)
    ensures forall a | a in Autos(rows) :: a in rows && AutoDeletable(a.kind)
  {
    if rows != [] {
      AutosAreRows(rows[..|rows| - 1]);
    }
  }

  lemma {:induction false} WithoutOutside(rows: seq<Row>, ids: set<nat>, more: set<nat>)
    requires forall r | r in rows :: r.id in more ==> r.id in ids
    ensures Without(rows, ids + more) == Without(rows, ids)
  {
    if rows != [] {
      WithoutOutside(rows[..|rows| - 1], ids, more);
      assert rows[|rows| - 1] in rows;
    }
  }

  lemma WithoutSnoc(front: seq<Row>, last: Row, ids: set<nat>)
    ensures Without(front + [last], ids) == Without(front, ids) + (if last.id in ids then [] else [last])
  {
    assert (front + [last])[..|front|] == front;
  }

  lemma AutosSnoc(front: seq<Row>, last: Row)
    ensures Autos(front + [last]) == if AutoDeletable(last.kind) then Autos(front) + [last] else Autos(front)
  {
    assert (front + [last])[..|front|] == front;
  }

  /** Removing the rows one by one leaves what the specification keeps. */
  lemma {:induction false} RemovalIsKept(rows: seq<Row>, l: Limits, now: int)
    requires DistinctIds(rows)
    ensures Without(rows, Doomed(Autos(rows), l, now)) == Kept(rows, l, now)
  {
    if rows != [] {
      var front, last := rows[..|rows| - 1], rows[|rows| - 1];
      assert rows == front + [last] && DistinctIds(front);
      RemovalIsKept(front, l, now);
      LastIsNotDoomed(front, last, l, now);
      var n, ids := |Autos(front)|, Doomed(Autos(front), l, now);
      AutosSnoc(front, last);
      if AutoDeletable(last.kind) {
        assert Autos(rows)[..n] == Autos(front);
      }
      var all := Doomed(Autos(rows), l, now);
      WithoutOutside(front, ids, {last.id});
      WithoutSnoc(front, last, all);
      assert all == if AutoDeletable(last.kind) && Expired(l, now, n, last) then ids + {last.id} else ids;
    }
  }

  lemma LastIsNotDoomed(front: seq<Row>, last: Row, l: Limits, now: int)
    requires DistinctIds(front + [last])
    ensures last.id !in Doomed(Autos(front), l, now) && forall r | r in front :: r.id != last.id
  {
    var rows := front + [last];
    forall r | r in front ensures r.id != last.id {
      var i :| 0 <= i < |front| && front[i] == r;
      assert rows[i].id != rows[|front|].id;
    }
    AutosAreRows(front);
    if last.id in Doomed(Autos(front), l, now) {
      DoomedAreAutos(Autos(front), l, now, last.id);
    }
  }

  /** Manual and uploaded backups all stay, in their order. */
  lemma {:induction false} OthersStay(rows: seq<Row>, l: Limits, now: int)
    ensures Others(Kept(rows, l, now)) == Others(rows)
  {
    if rows != [] {
      var front, last := rows[..|rows| - 1], rows[|rows| - 1];
      OthersStay(front, l, now);
      var kept := Kept(front, l, now);
      assert (kept + [last])[..|kept|] == kept;
    }
  }

  function Least(m: int, n: int): int {
    if m <= n then m else n
  }

  /** How many of the automatic backups are recent enough. */
  function Recent(autos: seq<Row>, l: Limits, now: int): (n: nat)
    ensures n <= |autos|
  {
    if autos == [] then 0
    else Recent(autos[..|autos| - 1], l, now) + if TooOld(l, now, autos[|autos| - 1]) then 0 else 1
  }

  /** How many survive: as many as the count limit allows of those young enough; 0 disables a limit. */
  function Survivors(autos: seq<Row>, l: Limits, now: int): (n: nat)
    ensures n <= |autos|
  {
    if l.keepLast > 0 then Least(l.keepLast, Recent(autos, l, now)) else Recent(autos, l, now)
  }

  lemma {:induction false} RecentIsPrefix(autos: seq<Row>, l: Limits, now: int, i: nat)
    requires NewestFirst(autos) && i < |autos|
    ensures i < Recent(autos, l, now) <==> !TooOld(l, now, autos[i])
  {
    var front, last := autos[..|autos| - 1], autos[|autos| - 1];
    if i < |front| {
      RecentIsPrefix(front, l, now, i);
      assert autos[i].created >= last.created;
    } else if i > 0 {
      RecentIsPrefix(front, l, now, i - 1);
      assert autos[i - 1].created >= last.created;
      if !TooOld(l, now, last) {
        AllRecent(front, l, now);
      }
    }
  }

  lemma {:induction false} AllRecent(autos: seq<Row>, l: Limits, now: int)
    requires forall a | a in autos :: !TooOld(l, now, a)
    ensures Recent(autos, l, now) == |autos|
  {
    if autos != [] {
      assert autos[|autos| - 1] in autos;
      AllRecent(autos[..|autos| - 1], l, now);
    }
  }

  // ------------------------------------------------------------ days that are no days

  /** Older than the configured number of days, which is what the limit is for. */
  predicate OlderThanDays(l: Limits, now: int, r: Row) {
    l.keepDays > 0 && now - r.created > l.keepDays * DAY
  }

  /** What should stay. */
  function Meant(rows: seq<Row>, l: Limits, now: int): seq<Row> {
    if rows == [] then []
    else
      var front, last := rows[..|rows| - 1], rows[|rows| - 1];
      var i := |Autos(front)|;
      if AutoDeletable(last.kind) && ((l.keepLast > 0 && i >= l.keepLast) || OlderThanDays(l, now, last)) then Meant(front, l, now)
      else Meant(front, l, now) + [last]
  }

  const MAX_DAYS := 106751

  /** Up to MAX_DAYS the product of days and nanoseconds fits; the next number of days wraps it around. */
  lemma SpanOfDays(days: int)
    requires days > 0
    ensures days <= MAX_DAYS ==> Span(days) == days * DAY
    ensures MAX_DAYS < days <= 2 * MAX_DAYS + 1 ==> Span(days) < 0
  {
    assert days <= MAX_DAYS ==> days * DAY <= MAX_DURATION;
    assert MAX_DAYS < days <= 2 * MAX_DAYS + 1 ==> MAX_DURATION < days * DAY < 2 * MAX_DURATION + 2;
  }

  /** Wrapping around at 64 bits keeps a number even. */
  lemma EvenWraps(y: int)
    ensures (2 * y) % (2 * MAX_DURATION + 2) != MAX_DURATION
  {
    var q := (2 * y) / (2 * MAX_DURATION + 2);
    assert (2 * y) % (2 * MAX_DURATION + 2) == 2 * y - q * (2 * MAX_DURATION + 2) == 2 * (y - q * (MAX_DURATION + 1));
    assert MAX_DURATION % 2 == 1;
  }

  /** A day has an even number of nanoseconds, so no span is the longest duration. */
  lemma SpanIsNotLongest(days: int)
    ensures Span(days) < MAX_DURATION
  {
    assert days * DAY == 2 * (days * (DAY / 2));
    EvenWraps(days * (DAY / 2));
  }

  /** A backup exactly as old as a limit beyond MAX_DAYS is too old. */
  lemma TooOldAtOnce(l: Limits, r: Row)
    requires l.keepDays > MAX_DAYS && r.created == 0
    ensures TooOld(l, l.keepDays * DAY, r)
  {
    SpanIsNotLongest(l.keepDays);
    assert l.keepDays * DAY > MAX_DURATION;
  }

  lemma TooOldIsOlder(l: Limits, now: int, r: Row)
    requires l.keepDays <= MAX_DAYS
    ensures TooOld(l, now, r) <==> OlderThanDays(l, now, r)
  {
    if l.keepDays > 0 {
      SpanOfDays(l.keepDays);
    }
  }

  lemma {:induction false} FewDays(rows: seq<Row>, l: Limits, now: int)
    requires l.keepDays <= MAX_DAYS
    ensures Kept(rows, l, now) == Meant(rows, l, now)
  {
    if rows != [] {
      FewDays(rows[..|rows| - 1], l, now);
      TooOldIsOlder(l, now, rows[|rows| - 1]);
    }
  }

  lemma LoneRow(row: Row, l: Limits, now: int)
    requires AutoDeletable(row.kind) && TooOld(l, now, row)
    ensures Kept([row], l, now) == []
    ensures !OlderThanDays(l, now, row) ==> Meant([row], l, now) == [row]
  {
    assert [row][..0] == [];
  }

  /** A backup exactly as old as the limit allows, which is removed although it should stay. */
  lemma ManyDays(l: Limits) returns (row: Row, now: int)
    requires l.keepDays > MAX_DAYS
    ensures Meant([row], l, now) == [row] && Kept([row], l, now) == []
  {
    row, now := Row(0, Scheduled, 0, ""), l.keepDays * DAY;
    TooOldAtOnce(l, row);
    LoneRow(row, l, now);
  }

  /** Retention keeps what it should, for all backups at all times, exactly when the limit is at most MAX_DAYS. */
  lemma DaysAreDays(l: Limits)
    ensures (forall rows, now :: Kept(rows, l, now) == Meant(rows, l, now)) <==> l.keepDays <= MAX_DAYS
  {
    if l.keepDays <= MAX_DAYS {
      forall rows, now ensures Kept(rows, l, now) == Meant(rows, l, now) {
        FewDays(rows, l, now);
      }
    } else {
      var row, now := ManyDays(l);
      assert Kept([row], l, now) != Meant([row], l, now);
    }
  }

  /** With a limit just beyond, up to twice as far, every automatic backup goes as soon as it is made. */
  lemma {:induction false} TooManyDaysKeepNone(rows: seq<Row>, l: Limits, now: int)
    requires MAX_DAYS < l.keepDays <= 2 * MAX_DAYS + 1 && forall r | r in rows :: r.created <= now
    ensures Kept(rows, l, now) == Others(rows)
  {
    if rows != [] {
      TooManyDaysKeepNone(rows[..|rows| - 1], l, now);
      SpanOfDays(l.keepDays);
      assert rows[|rows| - 1] in rows;
    }
  }

  // ------------------------------------------------------------ which automatic backups survive

  /** The automatic backups that are not expired, in order. */
  function Unexpired(autos: seq<Row>, l: Limits, now: int): seq<Row> {
    if autos == [] then []
    else
      var front, last := autos[..|autos| - 1], autos[|autos| - 1];
      Unexpired(front, l, now) + if Expired(l, now, |front|, last) then [] else [last]
  }

  lemma {:induction false} KeptAutos(rows: seq<Row>, l: Limits, now: int)
    ensures Autos(Kept(rows, l, now)) == Unexpired(Autos(rows), l, now)
  {
    if rows != [] {
      var front, last := rows[..|rows| - 1], rows[|rows| - 1];
      KeptAutos(front, l, now);
      AutosSnoc(Kept(front, l, now), last);
      var autos := Autos(front);
      assert (autos + [last])[..|autos|] == autos;
    }
  }

  lemma ExpiredIsBeyond(autos: seq<Row>, l: Limits, now: int, i: nat)
    requires NewestFirst(autos) && i < |autos|
    ensures Expired(l, now, i, autos[i]) <==> i >= Survivors(autos, l, now)
  {
    RecentIsPrefix(autos, l, now, i);
  }

  lemma {:induction false} UnexpiredTo(autos: seq<Row>, l: Limits, now: int, m: nat, n: nat)
    requires m <= |autos| && n <= |autos|
    requires forall i | 0 <= i < |autos| :: Expired(l, now, i, autos[i]) <==> i >= n
    ensures Unexpired(autos[..m], l, now) == autos[..if m <= n then m else n]
  {
    if m > 0 {
      UnexpiredTo(autos, l, now, m - 1, n);
      assert autos[..m][..m - 1] == autos[..m - 1];
      assert autos[..m] == autos[..m - 1] + [autos[m - 1]];
    }
  }

  /** The surviving automatic backups are the newest ones, as many as both limits allow. */
  lemma AutosAreThePrefix(rows: seq<Row>, l: Limits, now: int)
    requires NewestFirst(rows)
    ensures Autos(Kept(rows, l, now)) == Autos(rows)[..Survivors(Autos(rows), l, now)]
  {
    var autos := Autos(rows);
    AutosInOrder(rows);
    forall i: nat | i < |autos| ensures Expired(l, now, i, autos[i]) <==> i >= Survivors(autos, l, now) {
      ExpiredIsBeyond(autos, l, now, i);
    }
    KeptAutos(rows, l, now);
    UnexpiredTo(autos, l, now, |autos|, Survivors(autos, l, now));
    assert autos[..|autos|] == autos;
  }

  lemma {:induction false} AutosInOrder(rows: seq<Row>)
    requires NewestFirst(rows)
    ensures NewestFirst(Autos(rows))
  {
    if rows != [] {
      var front, last := rows[..|rows| - 1], rows[|rows| - 1];
      AutosInOrder(front);
      AutosAreRows(front);
      forall a | a in Autos(front) ensures a.created >= last.created {
        var i :| 0 <= i < |front| && front[i] == a;
        assert rows[i].created >= rows[|front|].created;
      }
      assert forall i | 0 <= i < |Autos(front)| :: Autos(front)[i] in Autos(front);
    }
  }

  lemma {:induction false} UnexpiredIsShorter(autos: seq<Row>, l: Limits, now: int)
    ensures |Unexpired(autos, l, now)| <= |autos|
  {
    if autos != [] {
      UnexpiredIsShorter(autos[..|autos| - 1], l, now);
    }
  }

  /** Running retention again at the same instant changes nothing. */
  lemma {:induction false} AgainChangesNothing(rows: seq<Row>, l: Limits, now: int)
    ensures Kept(Kept(rows, l, now), l, now) == Kept(rows, l, now)
  {
    if rows != [] {
      var front, last := rows[..|rows| - 1], rows[|rows| - 1];
      AgainChangesNothing(front, l, now);
      KeptAutos(front, l, now);
      UnexpiredIsShorter(Autos(front), l, now);
      var kept := Kept(front, l, now);
      assert (kept + [last])[..|kept|] == kept;
    }
  }

  // ------------------------------------------------------------ row by row

  /** Backups the system makes by itself. */
  predicate MadeAutomatically(r: Row) {
    r.kind.Scheduled? || r.kind.PreUpdate? || r.kind.PreRestore?
  }

  /** The automatic backups before row i. */
  ghost function AutosBefore(rows: seq<Row>, i: nat): set<nat>
    requires i <= |rows|
  {
    set j: nat | j < i && MadeAutomatically(rows[j])
  }

  lemma {:induction false} AutosCounted(rows: seq<Row>, i: nat)
    requires i <= |rows|
    ensures |Autos(rows[..i])| == |AutosBefore(rows, i)|
  {
    if i > 0 {
      AutosCounted(rows, i - 1);
      assert rows[..i][..i - 1] == rows[..i - 1];
      assert AutosBefore(rows, i) == AutosBefore(rows, i - 1) + if MadeAutomatically(rows[i - 1]) then {i - 1} else {};
    } else {
      assert AutosBefore(rows, 0) == {};
    }
  }

  lemma {:induction false} KeptAreRows(rows: seq<Row>, l: Limits, now: int)
    ensures forall r | r in Kept(rows, l, now) :: r in rows
  {
    if rows != [] {
      KeptAreRows(rows[..|rows| - 1], l, now);
    }
  }

  lemma {:induction false} KeptRow(rows: seq<Row>, l: Limits, now: int, i: nat)
    requires DistinctIds(rows) && i < |rows|
    ensures rows[i] in Kept(rows, l, now) <==> !(AutoDeletable(rows[i].kind) && Expired(l, now, |Autos(rows[..i])|, rows[i]))
  {
    var n := |rows| - 1;
    var front, last := rows[..n], rows[n];
    assert rows == front + [last];
    if i < n {
      KeptRow(front, l, now, i);
      assert front[..i] == rows[..i];
      assert rows[i].id != rows[n].id;
    } else {
      KeptAreRows(front, l, now);
      LastIsNotDoomed(front, last, l, now);
    }
  }

  /**
   A row stays exactly when the backup was made by hand or uploaded, or it is both among the newest keepLast automatic
   ones and at most keepDays days old, a limit of 0 being none.
   */
  lemma StaysExactlyWhen(rows: seq<Row>, l: Limits, now: int, i: nat)
    requires DistinctIds(rows) && i < |rows| && l.keepDays <= MAX_DAYS
    ensures rows[i] in Kept(rows, l, now) <==>
      || rows[i].kind.Manual? || rows[i].kind.Uploaded?
      || ((l.keepLast <= 0 || |AutosBefore(rows, i)| < l.keepLast)
          && (l.keepDays <= 0 || now - rows[i].created <= l.keepDays * (24 * 3600 * 1_000_000_000)))
  {
    KeptRow(rows, l, now, i);
    AutosCounted(rows, i);
    TooOldIsOlder(l, now, rows[i]);
  }

  /** The file of an expired backup goes if it can be removed. */
  predicate LosesFile(autos: seq<Row>, l: Limits, now: int, locked: set<string>, i: nat) {
    i < |autos| && Expired(l, now, i, autos[i]) && autos[i].filename !in locked
  }

  lemma LaterSame(autos: seq<Row>, l: Limits, now: int, locked: set<string>, i: nat)
    requires autos != [] && i < |autos| - 1
    ensures LosesFile(autos, l, now, locked, i) <==> LosesFile(autos[..|autos| - 1], l, now, locked, i)
  {
  }

  /** A row goes only once its file has gone, and never if it cannot be removed itself. */
  lemma {:induction false} GoneExactlyWhen(autos: seq<Row>, l: Limits, now: int, locked: set<string>, stuck: set<nat>,
                                           id: nat, file: string)
    ensures id in GoneRows(autos, l, now, locked, stuck) <==>
      exists i: nat :: LosesFile(autos, l, now, locked, i) && autos[i].id == id && id !in stuck
    ensures file in GoneFiles(autos, l, now, locked) <==>
      exists i: nat :: LosesFile(autos, l, now, locked, i) && autos[i].filename == file
  {
    if autos != [] {
      var n := |autos| - 1;
      GoneExactlyWhen(autos[..n], l, now, locked, stuck, id, file);
      forall i: nat | i < n ensures LosesFile(autos, l, now, locked, i) <==> LosesFile(autos[..n], l, now, locked, i) {
        LaterSame(autos, l, now, locked, i);
      }
      assert LosesFile(autos, l, now, locked, n) <==> Expired(l, now, n, autos[n]) && autos[n].filename !in locked;
    }
  }
}
