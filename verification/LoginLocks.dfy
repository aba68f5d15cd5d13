/** Who is locked out, and by whose failures: internal/auth/lockout.go:48-106. */
module LoginLocks {
  import opened Ascii
  import opened Lockout
  import opened LoginWindow

  /** Users are told apart by their names in lower case, addresses by themselves, and never one from the other. */
  lemma OwnKeys(u: string, v: string, ip: string, jp: string)
    ensures UserKey(u) == UserKey(v) <==> ToLower(u) == ToLower(v)
    ensures IpKey(ip) == IpKey(jp) <==> ip == jp
    ensures UserKey(u) != IpKey(ip)
  {
    assert UserKey(u)[2..] == ToLower(u) && UserKey(v)[2..] == ToLower(v);
    assert IpKey(ip)[3..] == ip && IpKey(jp)[3..] == jp;
    KeysDiffer(u, ip);
  }

  // ------------------------------------------------------------ the log tells who is locked

  /** A lock means as many failures as permitted, the last of them within five minutes. */
  lemma LockedForFailures(s: Sys, key: string, now: int)
    requires Inv(s) && Holds(s.attempts, key, now)
    ensures var log := LogOf(s, key); |log| >= LimitOf(key) > 0 && now < log[|log| - 1] + 300_000_000_000
  {
    assert KeyOk(s, key);
  }

  /** As many failures as permitted within five minutes mean a lock. */
  lemma FailuresLock(s: Sys, key: string, now: int)
    requires Inv(s) && s.clock <= now && |LogOf(s, key)| >= LimitOf(key)
    requires var log := LogOf(s, key); now < log[|log| - LimitOf(key)] + 300_000_000_000
    ensures Holds(s.attempts, key, now)
  {
    assert KeyOk(s, key);
  }

  /** A user is refused for five failures, an address for thirty. */
  lemma Limits(u: string, ip: string)
    ensures LimitOf(UserKey(u)) == 5 && LimitOf(IpKey(ip)) == 30
  {
    KeysDiffer(u, ip);
  }

  // ------------------------------------------------------------ what the log records

  /** A wrong password for the user, in whatever letter case, at that time. */
  predicate FailsFor(e: Event, u: string, t: int) {
    e.Login? && e.outcome.WrongPassword? && ToLower(e.username) == ToLower(u) && e.t3 == t
  }

  predicate FailsFrom(e: Event, ip: string, t: int) {
    e.Login? && e.outcome.WrongPassword? && e.ip == ip != "" && e.t3 == t
  }

  /** The log is kept, emptied, or gets one more time. */
  ghost predicate Kept(before: seq<int>, after: seq<int>) {
    after == before || after == []
  }

  ghost predicate OneMore(before: seq<int>, after: seq<int>, t: int) {
    after == before + [t] || after == [t] || Kept(before, after)
  }

  lemma RecordLog(s: Sys, key: string, limit: nat, now: int, v: Victim, k: string)
    ensures var before, after := LogOf(s, k), LogOf(DoRecord(s, key, limit, now, v), k);
      if k == key then OneMore(before, after, now) else Kept(before, after)
  {
  }

  lemma FailLog(s: Sys, u: string, ip: string, now: int, v1: Victim, v2: Victim, k: string)
    ensures var before, after := LogOf(s, k), LogOf(DoFail(s, u, ip, now, v1, v2), k);
      if k == UserKey(u) || (ip != "" && k == IpKey(ip)) then OneMore(before, after, now) else Kept(before, after)
  {
    var s1 := DoSweep(s, now);
    var s2 := DoRecord(s1, UserKey(u), MAX_LOGIN_FAILURES, now, v1);
    RecordLog(s1, UserKey(u), MAX_LOGIN_FAILURES, now, v1, k);
    KeysDiffer(u, ip);
    if ip != "" {
      RecordLog(s2, IpKey(ip), MAX_LOGIN_FAILURES_PER_IP, now, v2, k);
    }
  }

  lemma LoginLog(s: Sys, e: Event, r: Sys, k: string)
    requires Next(s, e, r) && e.Login?
    ensures var before, after := LogOf(s, k), LogOf(r, k);
      if e.outcome.WrongPassword? && (k == UserKey(e.username) || (e.ip != "" && k == IpKey(e.ip)))
      then OneMore(before, after, e.t3) else Kept(before, after)
  {
    var s1 := if e.ip == "" then s else DoAsk(s, IpKey(e.ip), e.t1);
    FailLog(DoAsk(s1, UserKey(e.username), e.t2), e.username, e.ip, e.t3, e.v1, e.v2, k);
  }

  ghost predicate Enters(e: Event, u: string, before: seq<int>, after: seq<int>) {
    if e.Login? && FailsFor(e, u, e.t3) then OneMore(before, after, e.t3) else Kept(before, after)
  }

  /** Only a user's own failures enter the user's log. */
  lemma OwnFailuresOnly(s: Sys, e: Event, r: Sys, u: string)
    requires Next(s, e, r)
    ensures Enters(e, u, LogOf(s, UserKey(u)), LogOf(r, UserKey(u)))
  {
    if e.Login? {
      OwnKeys(e.username, u, e.ip, e.ip);
      KeysDiffer(u, e.ip);
      LoginLog(s, e, r, UserKey(u));
    }
  }

  /** Only failures from an address enter its log. */
  lemma OwnAddressOnly(s: Sys, e: Event, r: Sys, ip: string)
    requires Next(s, e, r)
    ensures var before, after := LogOf(s, IpKey(ip)), LogOf(r, IpKey(ip));
      if e.Login? && FailsFrom(e, ip, e.t3) then OneMore(before, after, e.t3) else Kept(before, after)
  {
    if e.Login? {
      OwnKeys(e.username, e.username, ip, e.ip);
      KeysDiffer(e.username, ip);
      LoginLog(s, e, r, IpKey(ip));
    }
  }

  /** A wrong password that is not refused enters both logs. */
  lemma WrongPasswordCounts(s: Sys, e: Event, r: Sys)
    requires Next(s, e, r) && e.Login? && e.outcome.WrongPassword? && e.v1.NoVictim? && e.v2.NoVictim?
    requires e.ip != "" ==> !Holds(s.attempts, IpKey(e.ip), e.t1)
    requires !Holds(s.attempts, UserKey(e.username), e.t2)
    ensures LogOf(r, UserKey(e.username)) == LogOf(s, UserKey(e.username)) + [e.t3]
    ensures e.ip != "" ==> LogOf(r, IpKey(e.ip)) == LogOf(s, IpKey(e.ip)) + [e.t3]
  {
    KeysDiffer(e.username, e.ip);
  }

  /** A login that is accepted and a password reset make the user's failures and lock forgotten. */
  lemma SuccessForgets(s: Sys, e: Event, r: Sys)
    requires Next(s, e, r)
    requires e.PasswordReset? || (e.outcome.Accepted? && !Holds(s.attempts, UserKey(e.username), e.t2)
                                  && (e.ip == "" || !Holds(s.attempts, IpKey(e.ip), e.t1)))
    ensures UserKey(e.username) !in r.attempts && LogOf(r, UserKey(e.username)) == []
    ensures forall k | k != UserKey(e.username) :: LogOf(r, k) == LogOf(s, k)
  {
    if e.Login? {
      KeysDiffer(e.username, e.ip);
    }
  }

  /** A refused attempt and a disabled user leave all logs alone. */
  lemma RefusedLeavesLogs(s: Sys, e: Event, r: Sys)
    requires Next(s, e, r) && e.Login?
    requires e.outcome.Disabled? || (e.ip != "" && Holds(s.attempts, IpKey(e.ip), e.t1))
             || Holds(s.attempts, UserKey(e.username), e.t2)
    ensures r.log == s.log
  {
    KeysDiffer(e.username, e.ip);
  }

  // ------------------------------------------------------------ runs

  /** Different logins of a run, in order, at the times of the log. */
  ghost predicate AreFailures(events: seq<Event>, k: nat, u: string, at: seq<nat>, log: seq<int>)
    requires k <= |events|
  {
    && |at| == |log|
    && (forall i, j | 0 <= i < j < |at| :: at[i] < at[j])
    && (forall i | 0 <= i < |at| :: at[i] < k && FailsFor(events[at[i]], u, log[i]))
  }

  /** Every failure in a user's log is a login of that user with a wrong password. */
  lemma {:induction false} LogIsOfFailures(states: seq<Sys>, events: seq<Event>, k: nat, u: string) returns (at: seq<nat>)
    requires IsRun(states, events) && states[0].log == map[] && k < |states|
    ensures AreFailures(events, k, u, at, LogOf(states[k], UserKey(u)))
  {
    at := [];
    if k > 0 {
      at := LogIsOfFailures(states, events, k - 1, u);
      RunEnters(states, events, k, u);
      at := NextFailures(events, k - 1, u, at, LogOf(states[k - 1], UserKey(u)), LogOf(states[k], UserKey(u)));
    }
  }

  lemma RunEnters(states: seq<Sys>, events: seq<Event>, k: nat, u: string)
    requires IsRun(states, events) && 0 < k < |states|
    ensures Enters(events[k - 1], u, LogOf(states[k - 1], UserKey(u)), LogOf(states[k], UserKey(u)))
  {
    assert Next(states[k - 1], events[k - 1], states[k]);
    OwnFailuresOnly(states[k - 1], events[k - 1], states[k], u);
  }

  lemma NextFailures(events: seq<Event>, k: nat, u: string, at: seq<nat>, before: seq<int>, after: seq<int>)
    returns (to: seq<nat>)
    requires k < |events| && AreFailures(events, k, u, at, before)
    requires Enters(events[k], u, before, after)
    ensures AreFailures(events, k + 1, u, to, after)
  {
    to := if after == before then at else if after == [] then [] else if |after| == |before| + 1 then at + [k] else [k];
  }

  /** In every run a locked user has failed five times, in five different logins, the last within five minutes. */
  lemma LockedByOwnFailures(states: seq<Sys>, events: seq<Event>, k: nat, u: string, now: int) returns (at: seq<nat>)
    requires IsRun(states, events) && Inv(states[0]) && states[0].log == map[] && k < |states|
    requires Holds(states[k].attempts, UserKey(u), now)
    ensures |at| >= 5 && (forall i, j | 0 <= i < j < |at| :: at[i] < at[j])
    ensures forall i | 0 <= i < |at| :: at[i] < k && events[at[i]].Login? && FailsFor(events[at[i]], u, events[at[i]].t3)
    ensures now < events[at[|at| - 1]].t3 + 300_000_000_000
  {
    RunInv(states, events, k);
    Limits(u, "");
    LockedForFailures(states[k], UserKey(u), now);
    at := LogIsOfFailures(states, events, k, u);
  }
}
