/** The login lockout of internal/auth/lockout.go, and the login flow of internal/auth/service.go around it. */
module Lockout {
  import opened Ascii

  const MAX_LOGIN_FAILURES: nat := 5
  const MAX_LOGIN_FAILURES_PER_IP: nat := 30
  const LOCKOUT_DURATION: nat := 300_000_000_000  // 5 minutes in nanoseconds
  const MAX_LOCKOUT_ENTRIES: nat := 10_000

  datatype Until = Never | At(time: int)

  datatype Entry = Entry(failures: nat, lastFailure: int, lockedUntil: Until)

  type Attempts = map<string, Entry>

  datatype Victim = NoVictim | Evicted(key: string)

  function UserKey(username: string): string {
    "u:" + ToLower(username)
  }

  function IpKey(ip: string): string {
    "ip:" + ip
  }

  /** The limit RecordFailure applies to a key. */
  function LimitOf(key: string): nat {
    if "u:" <= key then MAX_LOGIN_FAILURES else MAX_LOGIN_FAILURES_PER_IP
  }

  // ------------------------------------------------------------ specification

  predicate Holds(m: Attempts, key: string, now: int) {
    key in m && m[key].lockedUntil.At? && now < m[key].lockedUntil.time
  }

  /** Asking about a key forgets it if its lock has run out. */
  function Asked(m: Attempts, key: string, now: int): Attempts {
    if key in m && m[key].lockedUntil.At? && !Holds(m, key, now) then m - {key} else m
  }

  predicate Outdated(e: Entry, now: int) {
    now - e.lastFailure > LOCKOUT_DURATION && (e.lockedUntil.Never? || now >= e.lockedUntil.time)
  }

  function Swept(m: Attempts, now: int): Attempts {
    map k | k in m && !Outdated(m[k], now) :: m[k]
  }

  /** Eviction happens only when a new key meets a full table, and takes an entry with the oldest failure. */
  ghost predicate MayEvict(m: Attempts, key: string, v: Victim) {
    if key in m || |m| < MAX_LOCKOUT_ENTRIES then v.NoVictim?
    else v.Evicted? && v.key in m && forall k | k in m :: m[v.key].lastFailure <= m[k].lastFailure
  }

  function Without(m: Attempts, v: Victim): Attempts {
    if v.Evicted? then m - {v.key} else m
  }

  function Recorded(m: Attempts, key: string, limit: nat, now: int, v: Victim): Attempts {
    var m1 := Without(m, v);
    var n := if key in m1 then m1[key].failures + 1 else 1;
    var held := if key in m1 then m1[key].lockedUntil else Never;
    m1[key := Entry(n, now, if n >= limit then At(now + LOCKOUT_DURATION) else held)]
  }

  // ------------------------------------------------------------ the code

  class LoginGuard {
    var attempts: Attempts

    ghost predicate Valid()
      reads this
    {
      |attempts| <= MAX_LOCKOUT_ENTRIES
    }

    constructor ()
      ensures Valid() && attempts == map[]
    {
      attempts := map[];
    }

    // lockout.go:63-76
    method Locked(key: string, now: int) returns (locked: bool)
      requires Valid()
      modifies this
      ensures Valid()
      ensures attempts == Asked(old(attempts), key, now)
      ensures locked <==> Holds(old(attempts), key, now)
      ensures locked <==> key in old(attempts) && var until := old(attempts)[key].lockedUntil; until.At? && now < until.time
      ensures attempts == if key in old(attempts) && old(attempts)[key].lockedUntil.At? && !locked then old(attempts) - {key}
                          else old(attempts)
    {
      if key !in attempts {
        return false;
      }
      var st := attempts[key];
      if st.lockedUntil.Never? {
        return false;
      }
      if now < st.lockedUntil.time {
        return true;
      }
      attempts := attempts - {key};
      return false;
    }

    // lockout.go:81-90
    method RecordFailure(username: string, ip: string, now: int) returns (ghost v1: Victim, ghost v2: Victim)
      requires Valid()
      modifies this
      ensures Valid()
      ensures FailureRecorded(old(attempts), username, ip, now, v1, v2, attempts)
    {
      Sweep(now);
      v1 := Record(UserKey(username), MAX_LOGIN_FAILURES, now);
      v2 := NoVictim;
      if ip != "" {
        v2 := Record(IpKey(ip), MAX_LOGIN_FAILURES_PER_IP, now);
      }
    }

    // lockout.go:92-106
    method Record(key: string, limit: nat, now: int) returns (ghost v: Victim)
      requires Valid()
      modifies this
      ensures Valid()
      ensures MayEvict(old(attempts), key, v)
      ensures attempts == Recorded(old(attempts), key, limit, now, v)
      ensures v.NoVictim? <==> key in old(attempts) || |old(attempts)| < 10_000
      ensures v.Evicted? ==> v.key in old(attempts)
      ensures v.Evicted? ==> forall k | k in old(attempts) :: old(attempts)[v.key].lastFailure <= old(attempts)[k].lastFailure
      ensures var e := if key in old(attempts) then old(attempts)[key] else Entry(0, now, Never);
        var until := if e.failures + 1 >= limit then At(now + 300_000_000_000) else e.lockedUntil;
        attempts == (if v.Evicted? then old(attempts) - {v.key} else old(attempts))[key := Entry(e.failures + 1, now, until)]
    {
      v := NoVictim;
      var st := Entry(0, now, Never);
      if key in attempts {
        st := attempts[key];
      } else if |attempts| >= MAX_LOCKOUT_ENTRIES {
        v := EvictOldest();
      }
      st := st.(failures := st.failures + 1, lastFailure := now);
      if st.failures >= limit {
        st := st.(lockedUntil := At(now + LOCKOUT_DURATION));
      }
      attempts := attempts[key := st];
    }

    // lockout.go:110-116
    method Sweep(now: int)
      requires Valid()
      modifies this
      ensures Valid()
      ensures attempts == Swept(old(attempts), now)
      ensures attempts == map k | k in old(attempts)
        && var e := old(attempts)[k]; !(now - e.lastFailure > 300_000_000_000 && (e.lockedUntil.At? ==> now >= e.lockedUntil.time))
        :: old(attempts)[k]
    {
      var keys := attempts.Keys;
      while keys != {}
        invariant keys <= attempts.Keys <= old(attempts).Keys
        invariant forall k | k in old(attempts) ::
                    k in attempts <==> k in keys || !Outdated(old(attempts)[k], now)
        invariant forall k | k in attempts :: attempts[k] == old(attempts)[k]
        decreases |keys|
      {
        var k :| k in keys;
        if Outdated(attempts[k], now) {
          attempts := attempts - {k};
        }
        keys := keys - {k};
      }
      assert attempts.Keys <= old(attempts).Keys;
      MapsShrink(old(attempts), attempts);
    }

    // lockout.go:118-129
    method EvictOldest() returns (ghost v: Victim)
      requires |attempts| > 0
      modifies this
      ensures v.Evicted? && v.key in old(attempts) && attempts == old(attempts) - {v.key}
      ensures forall k | k in old(attempts) :: old(attempts)[v.key].lastFailure <= old(attempts)[k].lastFailure
      ensures |attempts| == |old(attempts)| - 1
    {
      var oldestKey :| oldestKey in attempts;
      var oldest := attempts[oldestKey].lastFailure;
      var keys := attempts.Keys;
      while keys != {}
        invariant keys <= attempts.Keys
        invariant oldestKey in attempts && oldest == attempts[oldestKey].lastFailure
        invariant forall k | k in attempts && k !in keys :: oldest <= attempts[k].lastFailure
        decreases |keys|
      {
        var k :| k in keys;
        if attempts[k].lastFailure < oldest {
          oldestKey, oldest := k, attempts[k].lastFailure;
        }
        keys := keys - {k};
      }
      v := Evicted(oldestKey);
      attempts := attempts - {oldestKey};
      assert old(attempts).Keys == attempts.Keys + {oldestKey};
    }

    // lockout.go:133-137
    method Reset(username: string)
      requires Valid()
      modifies this
      ensures Valid()
      ensures attempts == old(attempts) - {UserKey(username)}
    {
      attempts := attempts - {UserKey(username)};
      MapsShrink(old(attempts), attempts);
    }
  }

  ghost predicate FailureRecorded(m: Attempts, username: string, ip: string, now: int, v1: Victim, v2: Victim, r: Attempts) {
    var m1 := Swept(m, now);
    var m2 := Recorded(m1, UserKey(username), MAX_LOGIN_FAILURES, now, v1);
    && MayEvict(m1, UserKey(username), v1)
    && (if ip == "" then v2.NoVictim? && r == m2
        else MayEvict(m2, IpKey(ip), v2) && r == Recorded(m2, IpKey(ip), MAX_LOGIN_FAILURES_PER_IP, now, v2))
  }

  lemma MapsShrink(m: Attempts, r: Attempts)
    requires r.Keys <= m.Keys
    ensures |r| <= |m|
  {
    assert m.Keys == r.Keys + (m.Keys - r.Keys);
    assert |r| == |r.Keys| && |m| == |m.Keys|;
  }
}
