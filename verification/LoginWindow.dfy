/** In every window of LOCKOUT_DURATION a key collects no more failures than its limit, over all runs of the login flow. */
module LoginWindow {
  import opened Lockout

  datatype Outcome = WrongPassword | Disabled | Accepted

  /** Times are the successive clock readings of one call. */
  datatype Event =
    | Login(username: string, ip: string, t1: int, t2: int, t3: int, outcome: Outcome, v1: Victim, v2: Victim)
    | PasswordReset(username: string, t: int)

  /** log records, per key, the times of its failures since it was last reset or evicted. */
  datatype Sys = Sys(attempts: Attempts, clock: int, log: map<string, seq<int>>)

  function LogOf(s: Sys, key: string): seq<int> {
    if key in s.log then s.log[key] else []
  }

  // ------------------------------------------------------------ steps

  function DoAsk(s: Sys, key: string, now: int): Sys {
    Sys(Asked(s.attempts, key, now), now, s.log)
  }

  function DoSweep(s: Sys, now: int): Sys {
    Sys(Swept(s.attempts, now), now, s.log)
  }

  function DoReset(s: Sys, key: string): Sys {
    s.(attempts := s.attempts - {key}, log := s.log - {key})
  }

  function DoRecord(s: Sys, key: string, limit: nat, now: int, v: Victim): Sys {
    var log := if v.Evicted? then s.log - {v.key} else s.log;
    Sys(Recorded(s.attempts, key, limit, now, v), now, log[key := LogOf(s.(log := log), key) + [now]])
  }

  /** RecordFailure, with its clock reading. */
  function DoFail(s: Sys, username: string, ip: string, now: int, v1: Victim, v2: Victim): Sys {
    var s1 := DoRecord(DoSweep(s, now), UserKey(username), MAX_LOGIN_FAILURES, now, v1);
    if ip == "" then s1 else DoRecord(s1, IpKey(ip), MAX_LOGIN_FAILURES_PER_IP, now, v2)
  }

  ghost predicate Next(s: Sys, e: Event, r: Sys) {
    match e
    case PasswordReset(username, t) => s.clock <= t && r == DoReset(s, UserKey(username)).(clock := t)
    case Login(username, ip, t1, t2, t3, outcome, v1, v2) =>
      && s.clock <= t1 <= t2 <= t3
      && (if ip != "" && Holds(s.attempts, IpKey(ip), t1) then r == DoAsk(s, IpKey(ip), t1)
          else
            var s1 := if ip == "" then s else DoAsk(s, IpKey(ip), t1);
            var s2 := DoAsk(s1, UserKey(username), t2);
            if Holds(s1.attempts, UserKey(username), t2) || outcome.Disabled? then r == s2
            else if outcome.Accepted? then r == DoReset(s2, UserKey(username))
            else
              && FailureRecorded(s2.attempts, username, ip, t3, v1, v2, r.attempts)
              && r == DoFail(s2, username, ip, t3, v1, v2))
  }

  // ------------------------------------------------------------ invariant

  ghost predicate Sorted(log: seq<int>, clock: int) {
    && (forall i, j | 0 <= i < j < |log| :: log[i] <= log[j])
    && (forall i | 0 <= i < |log| :: log[i] <= clock)
  }

  /** Any limit + 1 failures in a row span at least LOCKOUT_DURATION. */
  ghost predicate Spread(log: seq<int>, limit: nat) {
    forall i, j | 0 <= i && i + limit <= j < |log| :: log[i] + LOCKOUT_DURATION <= log[j]
  }

  /** The entry counts the last failures of the log; older ones are a window away from those. */
  ghost predicate Counts(e: Entry, log: seq<int>, limit: nat) {
    && 1 <= e.failures <= limit && e.failures <= |log|
    && e.lastFailure == log[|log| - 1]
    && e.lockedUntil == (if e.failures >= limit then At(e.lastFailure + LOCKOUT_DURATION) else Never)
    && forall i | 0 <= i < |log| - e.failures :: log[i] + LOCKOUT_DURATION <= log[|log| - e.failures]
  }

  ghost predicate KeyOk(s: Sys, key: string) {
    var log := LogOf(s, key);
    && Sorted(log, s.clock) && Spread(log, LimitOf(key))
    && (if key in s.attempts then Counts(s.attempts[key], log, LimitOf(key))
        else forall i | 0 <= i < |log| :: log[i] + LOCKOUT_DURATION <= s.clock)
  }

  ghost predicate Inv(s: Sys) {
    && |s.attempts| <= MAX_LOCKOUT_ENTRIES
    && forall key {:trigger KeyOk(s, key)} :: KeyOk(s, key)
  }

  lemma AskInv(s: Sys, key: string, now: int)
    requires Inv(s) && s.clock <= now
    ensures Inv(DoAsk(s, key, now))
    ensures !Holds(s.attempts, key, now) ==>
              forall k | k in DoAsk(s, key, now).attempts && k == key :: DoAsk(s, key, now).attempts[k].lockedUntil.Never?
  {
    var r := DoAsk(s, key, now);
    forall k ensures KeyOk(r, k) {
      assert KeyOk(s, k);
    }
    MapsShrink(s.attempts, r.attempts);
  }

  lemma SweepInv(s: Sys, now: int)
    requires Inv(s) && s.clock <= now
    ensures Inv(DoSweep(s, now))
  {
    var r := DoSweep(s, now);
    forall k ensures KeyOk(r, k) {
      assert KeyOk(s, k);
    }
    MapsShrink(s.attempts, r.attempts);
  }

  lemma ResetInv(s: Sys, key: string)
    requires Inv(s)
    ensures Inv(DoReset(s, key))
  {
    var r := DoReset(s, key);
    forall k ensures KeyOk(r, k) {
      assert KeyOk(s, k);
    }
    MapsShrink(s.attempts, r.attempts);
  }

  lemma RecordInv(s: Sys, key: string, now: int, v: Victim)
    requires Inv(s) && s.clock <= now && MayEvict(s.attempts, key, v)
    requires key in s.attempts ==> s.attempts[key].lockedUntil.Never?
    ensures Inv(DoRecord(s, key, LimitOf(key), now, v))
  {
    var limit := LimitOf(key);
    var r := DoRecord(s, key, limit, now, v);
    forall k ensures KeyOk(r, k) {
      assert KeyOk(s, k);
      if k == key {
        RecordKey(s, key, now, v);
      }
    }
    RecordedFits(s.attempts, key, limit, now, v);
  }

  lemma RecordedFits(m: Attempts, key: string, limit: nat, now: int, v: Victim)
    requires |m| <= MAX_LOCKOUT_ENTRIES && MayEvict(m, key, v)
    ensures |Recorded(m, key, limit, now, v)| <= MAX_LOCKOUT_ENTRIES
  {
    var m1, m2 := Without(m, v), Recorded(m, key, limit, now, v);
    if v.Evicted? {
      assert m.Keys == m1.Keys + {v.key};
    }
    assert |m1.Keys| == |m1| && m2.Keys == m1.Keys + {key} && |m2.Keys| == |m2|;
  }

  lemma RecordKey(s: Sys, key: string, now: int, v: Victim)
    requires Inv(s) && s.clock <= now && MayEvict(s.attempts, key, v)
    requires key in s.attempts ==> s.attempts[key].lockedUntil.Never?
    ensures KeyOk(DoRecord(s, key, LimitOf(key), now, v), key)
  {
    assert KeyOk(s, key);
    var r := DoRecord(s, key, LimitOf(key), now, v);
    var log := LogOf(s, key);
    assert LogOf(r, key) == log + [now];
    if key in s.attempts {
      CountsOneMore(s.attempts[key], r.attempts[key], log, LimitOf(key), now);
    } else {
      CountsAnew(r.attempts[key], log, LimitOf(key), now);
    }
  }

  function AfterFailure(failures: nat, limit: nat, now: int): Entry {
    Entry(failures, now, if failures >= limit then At(now + LOCKOUT_DURATION) else Never)
  }

  /** An entry that is not locked counts a failure more. */
  lemma CountsOneMore(e: Entry, f: Entry, log: seq<int>, limit: nat, now: int)
    requires Counts(e, log, limit) && e.lockedUntil.Never? && Sorted(log, now) && Spread(log, limit)
    requires f == AfterFailure(e.failures + 1, limit, now)
    ensures Sorted(log + [now], now) && Spread(log + [now], limit) && Counts(f, log + [now], limit)
  {
  }

  /** A key that has no entry has no failure in the window before now. */
  lemma CountsAnew(f: Entry, log: seq<int>, limit: nat, now: int)
    requires f == AfterFailure(1, limit, now) && limit > 0 && Sorted(log, now) && Spread(log, limit) && forall i | 0 <= i < |log| :: log[i] + LOCKOUT_DURATION <= now
    ensures Sorted(log + [now], now) && Spread(log + [now], limit) && Counts(f, log + [now], limit)
  {
  }

  lemma KeysDiffer(username: string, ip: string)
    ensures UserKey(username) != IpKey(ip)
    ensures LimitOf(UserKey(username)) == MAX_LOGIN_FAILURES && LimitOf(IpKey(ip)) == MAX_LOGIN_FAILURES_PER_IP
  {
    assert UserKey(username)[0] == 'u' && IpKey(ip)[0] == 'i';
    assert UserKey(username)[..2] == "u:";
  }

  lemma FailInv(s: Sys, username: string, ip: string, now: int, v1: Victim, v2: Victim)
    requires Inv(s) && s.clock <= now
    requires FailureRecorded(s.attempts, username, ip, now, v1, v2, DoFail(s, username, ip, now, v1, v2).attempts)
    requires UserKey(username) in s.attempts ==> s.attempts[UserKey(username)].lockedUntil.Never?
    requires ip != "" && IpKey(ip) in s.attempts ==> s.attempts[IpKey(ip)].lockedUntil.Never?
    ensures Inv(DoFail(s, username, ip, now, v1, v2))
  {
    KeysDiffer(username, ip);
    SweepInv(s, now);
    var s1 := DoSweep(s, now);
    RecordInv(s1, UserKey(username), now, v1);
    if ip != "" {
      var s2 := DoRecord(s1, UserKey(username), MAX_LOGIN_FAILURES, now, v1);
      RecordInv(s2, IpKey(ip), now, v2);
    }
  }

  lemma LoginInv(s: Sys, username: string, ip: string, t1: int, t2: int, t3: int, outcome: Outcome, v1: Victim, v2: Victim,
                 r: Sys)
    requires Inv(s) && Next(s, Event.Login(username, ip, t1, t2, t3, outcome, v1, v2), r)
    ensures Inv(r) && s.clock <= r.clock
  {
    KeysDiffer(username, ip);
    if ip != "" {
      AskInv(s, IpKey(ip), t1);
    }
    var s1 := if ip == "" then s else DoAsk(s, IpKey(ip), t1);
    AskInv(s1, UserKey(username), t2);
    var s2 := DoAsk(s1, UserKey(username), t2);
    ResetInv(s2, UserKey(username));
    if !(ip != "" && Holds(s.attempts, IpKey(ip), t1)) && !Holds(s1.attempts, UserKey(username), t2)
       && outcome.WrongPassword? {
      FailInv(s2, username, ip, t3, v1, v2);
    }
  }

  lemma NextInv(s: Sys, e: Event, r: Sys)
    requires Inv(s) && Next(s, e, r)
    ensures Inv(r) && s.clock <= r.clock
  {
    match e
    case PasswordReset(username, t) =>
      ResetInv(s, UserKey(username));
      LaterInv(DoReset(s, UserKey(username)), t);
    case Login(username, ip, t1, t2, t3, outcome, v1, v2) => LoginInv(s, username, ip, t1, t2, t3, outcome, v1, v2, r);
  }

  lemma LaterInv(s: Sys, t: int)
    requires Inv(s) && s.clock <= t
    ensures Inv(s.(clock := t))
  {
    forall k ensures KeyOk(s.(clock := t), k) {
      assert KeyOk(s, k);
    }
  }

  // ------------------------------------------------------------ runs

  ghost predicate IsRun(states: seq<Sys>, events: seq<Event>) {
    && |states| == |events| + 1
    && forall k {:trigger events[k]} | 0 <= k < |events| :: Next(states[k], events[k], states[k + 1])
  }

  lemma {:induction false} RunInv(states: seq<Sys>, events: seq<Event>, k: nat)
    requires IsRun(states, events) && Inv(states[0]) && k < |states|
    ensures Inv(states[k])
  {
    if k > 0 {
      RunInv(states, events, k - 1);
      NextInv(states[k - 1], events[k - 1], states[k]);
    }
  }

  /** The failures of a log that fall into the half-open window starting at `from`. */
  ghost function InWindow(log: seq<int>, from: int): set<nat> {
    set i: nat | 0 <= i < |log| && from <= log[i] < from + LOCKOUT_DURATION
  }

  lemma SpreadBoundsWindow(log: seq<int>, clock: int, limit: nat, from: int)
    requires Sorted(log, clock) && Spread(log, limit)
    ensures |InWindow(log, from)| <= limit
  {
    var w := InWindow(log, from);
    forall i, j | i in w && j in w
      ensures j < i + limit
    {
      assert log[i] + LOCKOUT_DURATION > log[j];
    }
    CloseTogether(w, limit);
  }

  lemma CloseTogether(w: set<nat>, limit: nat)
    requires forall i, j | i in w && j in w :: j < i + limit
    ensures |w| <= limit
  {
    if w != {} {
      var first := Least(w);
      assert w <= Range(first, limit);
      assert Range(first, limit) == w + (Range(first, limit) - w);
    }
  }

  lemma Least(w: set<nat>) returns (m: nat)
    requires w != {}
    ensures m in w && forall i | i in w :: m <= i
  {
    m :| m in w;
    if w != {m} {
      var n := Least(w - {m});
      assert forall i | i in w :: i == m || i in w - {m};
      m := if n < m then n else m;
    }
  }

  ghost function Range(first: nat, n: nat): (r: set<nat>)
    ensures |r| == n && forall i: nat :: i in r <==> first <= i < first + n
  {
    if n == 0 then {} else Range(first, n - 1) + {first + n - 1}
  }

  /** The window law and the size bound, in every state of every run of the login flow. */
  lemma LoginsAreRationed(states: seq<Sys>, events: seq<Event>, k: nat, from: int, username: string, ip: string)
    requires IsRun(states, events) && states[0].attempts == map[] && states[0].log == map[] && k < |states|
    ensures |states[k].attempts| <= MAX_LOCKOUT_ENTRIES
    ensures |InWindow(LogOf(states[k], UserKey(username)), from)| <= MAX_LOGIN_FAILURES
    ensures |InWindow(LogOf(states[k], IpKey(ip)), from)| <= MAX_LOGIN_FAILURES_PER_IP
  {
    forall key ensures KeyOk(states[0], key) {
      assert LogOf(states[0], key) == [];
    }
    RunInv(states, events, k);
    KeysDiffer(username, ip);
    assert KeyOk(states[k], UserKey(username)) && KeyOk(states[k], IpKey(ip));
    SpreadBoundsWindow(LogOf(states[k], UserKey(username)), states[k].clock, MAX_LOGIN_FAILURES, from);
    SpreadBoundsWindow(LogOf(states[k], IpKey(ip)), states[k].clock, MAX_LOGIN_FAILURES_PER_IP, from);
  }

  // ------------------------------------------------------------ the code

  /** The part of Service.Login that consults and feeds the table, service.go:216-245. */
  method Login(guard: LoginGuard, username: string, ip: string, t1: int, t2: int, t3: int, outcome: Outcome, ghost s: Sys)
    returns (refused: bool, ghost e: Event, ghost r: Sys)
    requires guard.Valid() && guard.attempts == s.attempts && s.clock <= t1 <= t2 <= t3
    modifies guard
    ensures guard.Valid() && guard.attempts == r.attempts && Next(s, e, r)
    ensures e.Login? && e.username == username && e.ip == ip && e.outcome == outcome
    ensures refused <==> (ip != "" && Holds(old(guard.attempts), IpKey(ip), t1)) || Holds(old(guard.attempts), UserKey(username), t2)
    ensures refused ==> r.log == s.log
  {
    KeysDiffer(username, ip);
    e, r := Event.Login(username, ip, t1, t2, t3, outcome, NoVictim, NoVictim), s;
    refused := false;
    if ip != "" {
      refused := guard.Locked(IpKey(ip), t1);
      r := DoAsk(s, IpKey(ip), t1);
      if refused { return; }
    }
    refused := guard.Locked(UserKey(username), t2);
    r := DoAsk(r, UserKey(username), t2);
    if refused { return; }
    match outcome
    case WrongPassword =>
      ghost var v1, v2 := guard.RecordFailure(username, ip, t3);
      e := e.(v1 := v1, v2 := v2);
      r := DoFail(r, username, ip, t3, v1, v2);
    case Disabled =>
    case Accepted =>
      guard.Reset(username);
      r := DoReset(r, UserKey(username));
  }
}
