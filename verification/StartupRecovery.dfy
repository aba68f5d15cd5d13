/** Startup recovery of stale job rows, running beside Enqueue and the workers: internal/jobs/store.go:161-202. */
module StartupRecovery {
  import opened JobProtocol

  datatype Recovery =
    | Idle
    | Locked
    | Queried(found: seq<JobId>)
    | Marking(stale: seq<JobId>, next: nat)
    | Finished
    | Broken          // an update failed and Start gave up

  datatype Table = Table(
    rows: map<JobId, Status>,
    inserting: set<JobId>,   // enqueuers holding the read lock with their row inserted
    owned: set<JobId>,       // keys of Runner.jobs
    recovery: Recovery)

  /**
   Enqueue inserts a row and registers its job while holding the read side of lifecycleMu; Start queries, filters and
   marks stale rows while holding the write side; workers of this process update their own rows at any time.
   */
  datatype Action =
    | Insert(id: JobId)
    | Register(id: JobId)
    | Advance(id: JobId, status: Status)
    | Lock
    | Query(found: seq<JobId>)
    | Filter
    | Mark
    | MarkError
    | Unlock

  predicate WriterHolds(t: Table) {
    t.recovery.Locked? || t.recovery.Queried? || t.recovery.Marking?
  }

  /** The rows a `status IN ('queued','running')` query yields, in any order. */
  ghost predicate Lists(found: seq<JobId>, rows: map<JobId, Status>) {
    && (forall id :: id in found <==> id in rows && !rows[id].Terminal())
    && (forall k, l | 0 <= k < l < |found| :: found[k] != found[l])
  }

  function Unowned(found: seq<JobId>, owned: set<JobId>): seq<JobId> {
    if found == [] then []
    else
      var front, id := Unowned(found[..|found| - 1], owned), found[|found| - 1];
      if id in owned then front else front + [id]
  }

  ghost predicate Can(t: Table, a: Action) {
    match a
    case Insert(id) => !WriterHolds(t) && id !in t.rows
    case Register(id) => id in t.inserting
    case Advance(id, status) => id in t.owned && id in t.rows && t.rows[id].Rank() < status.Rank()
    case Lock => t.recovery.Idle? && t.inserting == {}
    case Query(found) => t.recovery.Locked? && Lists(found, t.rows)
    case Filter => t.recovery.Queried?
    case Mark => t.recovery.Marking? && t.recovery.next < |t.recovery.stale|
    case MarkError => t.recovery.Marking? && t.recovery.next < |t.recovery.stale|
    case Unlock => t.recovery.Marking? && t.recovery.next == |t.recovery.stale|
  }

  ghost function Do(t: Table, a: Action): Table
    requires Can(t, a)
  {
    match a
    case Insert(id) => t.(rows := t.rows[id := Queued], inserting := t.inserting + {id})
    case Register(id) => t.(owned := t.owned + {id}, inserting := t.inserting - {id})
    case Advance(id, status) => t.(rows := t.rows[id := status])
    case Lock => t.(recovery := Locked)
    case Query(found) => t.(recovery := Queried(found))
    case Filter => t.(recovery := Marking(Unowned(t.recovery.found, t.owned), 0))
    case Mark =>
      t.(rows := t.rows[t.recovery.stale[t.recovery.next] := Failed],
         recovery := Marking(t.recovery.stale, t.recovery.next + 1))
    case MarkError => t.(recovery := Broken)
    case Unlock => t.(recovery := Finished)
  }

  /** A process starts with the rows an earlier one left behind, and owns nothing. */
  function Boot(left: map<JobId, Status>): Table {
    Table(left, {}, {}, Idle)
  }

  ghost predicate Stale(left: map<JobId, Status>, id: JobId) {
    id in left && !left[id].Terminal()
  }

  /** What recovery has made of a row of the earlier process so far. */
  ghost predicate LeftoverOk(left: map<JobId, Status>, t: Table, id: JobId)
    requires id in t.rows && id in left
    requires t.recovery.Marking? ==> t.recovery.next <= |t.recovery.stale|
  {
    match t.recovery
    case Finished => t.rows[id] == if Stale(left, id) then Failed else left[id]
    case Marking(stale, next) =>
      t.rows[id] == if Stale(left, id) && id in stale[..next] then Failed else left[id]
    case Broken => t.rows[id] == left[id] || (Stale(left, id) && t.rows[id] == Failed)
    case _ => t.rows[id] == left[id]
  }

  ghost predicate Inv(left: map<JobId, Status>, t: Table) {
    && left.Keys <= t.rows.Keys
    && t.owned + t.inserting == t.rows.Keys - left.Keys
    && t.owned !! t.inserting
    && (WriterHolds(t) ==> t.inserting == {})
    && (t.recovery.Marking? ==>
          && t.recovery.next <= |t.recovery.stale|
          && (forall id :: id in t.recovery.stale <==> Stale(left, id)))
    && (forall id | id in left :: LeftoverOk(left, t, id))
    && (t.recovery.Queried? ==>
          && (forall id | Stale(left, id) :: id in t.recovery.found)
          && (forall id | id in t.recovery.found :: Stale(left, id) || id in t.owned))
  }

  lemma {:induction false} UnownedMembers(found: seq<JobId>, owned: set<JobId>, id: JobId)
    ensures id in Unowned(found, owned) <==> id in found && id !in owned
  {
    if found != [] {
      UnownedMembers(found[..|found| - 1], owned, id);
      assert found == found[..|found| - 1] + [found[|found| - 1]];
    }
  }

  lemma ActionInv(left: map<JobId, Status>, t: Table, a: Action)
    requires Inv(left, t) && Can(t, a)
    ensures Inv(left, Do(t, a))
  {
    match a
    case Filter =>
      forall id
        ensures id in Unowned(t.recovery.found, t.owned) <==> Stale(left, id)
      {
        UnownedMembers(t.recovery.found, t.owned, id);
      }
    case Mark =>
      var stale, next := t.recovery.stale, t.recovery.next;
      assert stale[..next + 1] == stale[..next] + [stale[next]];
      assert stale[next] in stale;
    case Unlock =>
      assert t.recovery.stale[..t.recovery.next] == t.recovery.stale;
    case _ =>
  }

  /** Recovery never touches a row this process inserted. */
  lemma OwnRowsUntouched(left: map<JobId, Status>, t: Table, a: Action, id: JobId)
    requires Inv(left, t) && Can(t, a)
    requires id in t.owned || id in t.inserting
    ensures id in Do(t, a).rows
    ensures Do(t, a).rows[id] != t.rows[id] ==> a.Advance? && a.id == id
  {
    if a.Mark? {
      assert t.recovery.stale[t.recovery.next] in t.recovery.stale;
    }
  }

  ghost predicate IsRun(tables: seq<Table>, actions: seq<Action>) {
    && |tables| == |actions| + 1
    && forall k {:trigger actions[k]} | 0 <= k < |actions| ::
         Can(tables[k], actions[k]) && tables[k + 1] == Do(tables[k], actions[k])
  }

  lemma {:induction false} RunInv(left: map<JobId, Status>, tables: seq<Table>, actions: seq<Action>, k: nat)
    requires IsRun(tables, actions) && tables[0] == Boot(left) && k < |tables|
    ensures Inv(left, tables[k])
  {
    if k > 0 {
      RunInv(left, tables, actions, k - 1);
      ActionInv(left, tables[k - 1], actions[k - 1]);
    }
  }

  /**
   In any interleaving, once Start has released the lock exactly the queued and running rows
   of the earlier process are failed, its other rows are as they were, and a row of this
   process has changed only where one of its own updates changed it.
   */
  lemma RecoveryIsExact(left: map<JobId, Status>, tables: seq<Table>, actions: seq<Action>, k: nat)
    requires IsRun(tables, actions) && tables[0] == Boot(left) && k < |tables|
    ensures left.Keys <= tables[k].rows.Keys
    ensures tables[k].recovery.Finished? ==>
              forall id | id in left :: tables[k].rows[id] == if left[id] == Queued || left[id] == Running then Failed else left[id]
    ensures k < |actions| ==>
              forall id | id in tables[k].rows && id !in left ::
                && id in tables[k + 1].rows
                && (tables[k + 1].rows[id] != tables[k].rows[id] ==> actions[k] == Advance(id, tables[k + 1].rows[id]))
  {
    RunInv(left, tables, actions, k);
    if k < |actions| {
      forall id | id in tables[k].rows && id !in left
        ensures id in tables[k + 1].rows
        ensures tables[k + 1].rows[id] != tables[k].rows[id] ==> actions[k] == Advance(id, tables[k + 1].rows[id])
      {
        OwnRowsUntouched(left, tables[k], actions[k], id);
      }
    }
  }

  /** The loop that compacts the slice of stale rows in place, store.go:186-191. */
  method KeepUnowned(stale: array<JobId>, owned: set<JobId>) returns (n: nat)
    modifies stale
    ensures n <= stale.Length
    ensures stale[..n] == Unowned(old(stale[..]), owned)
  {
    ghost var all := stale[..];
    n := 0;
    var i := 0;
    while i < stale.Length
      invariant n <= i <= stale.Length
      invariant forall k | i <= k < stale.Length :: stale[k] == all[k]
      invariant stale[..n] == Unowned(all[..i], owned)
    {
      assert all[..i + 1][..i] == all[..i];
      assert stale[i] == all[i];
      if stale[i] !in owned {
        stale[n] := stale[i];
        n := n + 1;
      }
      i := i + 1;
    }
    assert all[..i] == all;
  }
}
