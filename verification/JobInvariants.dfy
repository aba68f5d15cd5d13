/**
 The inductive invariant of the job runner and its preservation by every step.

 Four facts carry it. Every unfinished job has one keeper, the thread or the queue that has to finish it (`JobOk`), and
 while a thread keeps a job its program counter fixes the phase and status the job has (`Matches`). Every active queue
 has one server, the worker that pops from it (`QueueOk`, `ThreadOk`). Every job appended has a ticket, and a queue
 holds its jobs in ticket order behind the one served last (`PendingOk`, `StartsSorted`). And the semaphore counts the
 threads past acquiring and before releasing a slot (`SlotsCounted`).

 Steps that leave the queues alone change one thread and at most one job; `TouchInv` reduces them to what that thread
 and that job have to satisfy. The four steps that change a queue are proved fact by fact, each for the thread, the
 queue and the job it touches and for all the others.
 */
module JobInvariants {
  import opened JobProtocol

  predicate HasJob(th: Thread) {
    th.Enqueuer? || th.Canceller? || (!th.pc.Fetch? && !th.pc.Releasing?)
  }

  function JobOf(th: Thread): JobId
    requires HasJob(th)
  {
    if th.Worker? then th.pc.id else th.job
  }

  /** A thread past the point where the job is its own to finish. */
  predicate Committed(th: Thread) {
    th.Canceller? || (th.Worker? && HasJob(th) && !th.pc.Popped? && !th.pc.Waiting? && !th.pc.Admitted?)
  }

  predicate HoldsSlot(th: Thread) {
    th.Worker? && !th.pc.Fetch? && !th.pc.Popped? && !th.pc.Waiting?
  }

  ghost function SlotHolders(threads: map<ThreadId, Thread>): set<ThreadId> {
    set t | t in threads && HoldsSlot(threads[t])
  }

  /** Phase and status a job must have while thread `th` is the one to finish it. */
  predicate Matches(th: Thread, j: JobRecord) {
    match th
    case Enqueuer(_) => j.phase.PhaseQueued?
    case Canceller(_, stage) =>
      j.phase.PhaseDone? && (if stage.Sealing? then j.status.Cancelled? else j.status.Queued?)
    case Worker(_, pc) =>
      match pc
      case Popped(_) => j.phase.PhaseQueued?
      case Waiting(_) => j.phase.PhaseQueued?
      case Admitted(_) => j.phase.PhaseQueued?
      case Opening(_) => j.phase.PhaseRunning? && j.status.Queued? && j.invocations == 0
      case Starting(_) => j.phase.PhaseRunning? && j.status.Queued? && j.invocations == 0
      case Invoking(_) => j.phase.PhaseRunning? && j.status.Running? && j.invocations == 0
      case Executing(_) => j.phase.PhaseRunning? && j.status.Running? && j.invocations == 1
      case Returned(_, _) => j.phase.PhaseRunning? && j.status.Running? && j.invocations == 1
      case Finishing(_, v) =>
        j.phase.PhaseRunning? && !j.status.Terminal() && v.Terminal() && (v.Failed? || j.invocations == 1)
      case Closing(_) =>
        j.phase.PhaseDone? && j.status.Terminal() && (j.status.Failed? || j.invocations == 1)
      case Fetch => false
      case Releasing => false
  }

  /** A thread works on a registered job; a worker is the one server of its active queue. */
  ghost predicate ThreadOk(s: State, t: ThreadId) {
    t in s.threads ==>
      var th := s.threads[t];
      && (HasJob(th) ==>
            && JobOf(th) in s.jobs && JobOf(th) in s.keeper
            && (Committed(th) || s.jobs[JobOf(th)].phase.PhaseQueued? ==> s.keeper[JobOf(th)] == ByThread(t)))
      && (th.Enqueuer? ==> th.job !in s.ticket && th.job in s.enqueuer && s.enqueuer[th.job] == t)
      && (th.Worker? ==>
            && QueueOf(s, th.instance).active
            && th.instance in s.server && s.server[th.instance] == t)
      && (th.Worker? && HasJob(th) ==>
            && s.jobs[JobOf(th)].instance == th.instance
            && JobOf(th) in s.ticket && s.ticket[JobOf(th)] + 1 == Served(s, th.instance))
  }

  /** Pending jobs sit in ticket order behind the one served last, and keep the queue staffed. */
  ghost predicate QueueOk(s: State, i: InstanceId) {
    var q := QueueOf(s, i);
    && (q.pending != [] ==> q.active)
    && (q.active ==>
          i in s.server && IsWorker(s, s.server[i]) && s.threads[s.server[i]].instance == i)
    && Served(s, i) <= |s.appended|
    && PendingOk(q.pending, i, s.jobs, s.keeper, s.ticket, Served(s, i))
  }

  ghost predicate PendingOk(pending: seq<JobId>, i: InstanceId, jobs: map<JobId, JobRecord>,
                            keeper: map<JobId, Keeper>, ticket: map<JobId, nat>, from: nat) {
    && (forall k | 0 <= k < |pending| ::
          var id := pending[k];
          && id in jobs && id in keeper && jobs[id].instance == i
          && (jobs[id].phase.PhaseQueued? ==> keeper[id] == ByQueue)
          && id in ticket && from <= ticket[id])
    && (forall k, l | 0 <= k < l < |pending| :: ticket[pending[k]] < ticket[pending[l]])
  }

  /** Somebody has to finish the job until it is finished, and then it is finished once. */
  ghost predicate JobOk(s: State, id: JobId) {
    id in s.jobs ==>
      var j := s.jobs[id];
      && (j.phase.PhaseQueued? ==> j.status.Queued? && !j.cancelRequested && j.invocations == 0)
      && j.invocations <= 1
      && (id in s.ticket ==> s.ticket[id] < |s.appended| && s.appended[s.ticket[id]] == id)
      && id in s.keeper
      && match s.keeper[id]
         case Nobody => j.phase.PhaseDone? && j.status.Terminal() && j.closes == 1
         case ByQueue => j.phase.PhaseQueued? && j.closes == 0 && id in QueueOf(s, j.instance).pending
         case ByThread(t) =>
           && j.closes == 0
           && t in s.threads && HasJob(s.threads[t]) && JobOf(s.threads[t]) == id
           && Matches(s.threads[t], j)
  }

  /** What is known of a job according to whether it was ever started. */
  ghost predicate StartOk(s: State, id: JobId) {
    id in s.jobs ==>
      var j := s.jobs[id];
      if id in s.starts then
        && !j.phase.PhaseQueued? && id in s.ticket && s.ticket[id] < Served(s, j.instance)
        && (j.phase.PhaseDone? ==> j.status.Failed? || j.invocations == 1)
      else
        && !j.phase.PhaseRunning? && j.invocations == 0
        && (j.phase.PhaseDone? ==> j.cancelRequested && (j.status.Queued? || j.status.Cancelled?))
  }

  ghost predicate StartsSorted(s: State) {
    && (forall k | 0 <= k < |s.starts| :: s.starts[k] in s.jobs && s.starts[k] in s.ticket)
    && (forall k, l | 0 <= k < l < |s.starts| ::
          && s.starts[k] != s.starts[l]
          && (s.jobs[s.starts[k]].instance == s.jobs[s.starts[l]].instance ==>
                s.ticket[s.starts[k]] < s.ticket[s.starts[l]]))
  }

  ghost predicate LogOk(s: State) {
    && s.ticket.Keys <= s.jobs.Keys
    && (forall p | 0 <= p < |s.appended| :: s.appended[p] in s.ticket && s.ticket[s.appended[p]] == p)
  }

  ghost predicate SlotsCounted(s: State) {
    s.sem == |SlotHolders(s.threads)| && s.sem <= s.maxConcurrent
  }

  ghost predicate Inv(s: State) {
    && (forall t {:trigger ThreadOk(s, t)} :: ThreadOk(s, t))
    && (forall i {:trigger QueueOk(s, i)} :: QueueOk(s, i))
    && (forall id {:trigger JobOk(s, id)} :: JobOk(s, id))
    && (forall id {:trigger StartOk(s, id)} :: StartOk(s, id))
    && LogOk(s)
    && StartsSorted(s)
    && SlotsCounted(s)
  }

  lemma InitInv(maxConcurrent: nat)
    ensures Inv(Init(maxConcurrent))
  {
    assert SlotHolders(Init(maxConcurrent).threads) == {};
  }

  // ------------------------------------------------------------ steps that leave the queues alone

  /** `r` differs from `s` only in thread `t`, in job `id` and in who keeps `id`. */
  ghost predicate Touches(s: State, r: State, t: ThreadId, id: JobId) {
    && r.maxConcurrent == s.maxConcurrent && r.queues == s.queues && r.server == s.server
    && r.ticket == s.ticket && r.appended == s.appended && r.served == s.served
    && r.threads - {t} == s.threads - {t}
    && r.jobs - {id} == s.jobs - {id}
    && r.keeper - {id} == s.keeper - {id}
    && r.enqueuer - {id} == s.enqueuer - {id}
    && (t in s.threads && HasJob(s.threads[t]) ==> JobOf(s.threads[t]) == id)
    && (id in s.jobs ==>
          && id in r.jobs && id in s.keeper && id in r.keeper
          && r.jobs[id].instance == s.jobs[id].instance
          && (id in s.enqueuer ==> id in r.enqueuer && r.enqueuer[id] == s.enqueuer[id])
          && (r.jobs[id].phase.PhaseQueued? ==> s.jobs[id].phase.PhaseQueued? && r.keeper[id] == s.keeper[id])
          && (r.keeper[id] != s.keeper[id] ==> s.keeper[id] == ByThread(t) || s.jobs[id].phase.PhaseQueued?))
  }

  lemma SameElsewhere<K, V>(m: map<K, V>, k: K, v: V)
    ensures m[k := v] - {k} == m - {k}
  {
  }

  lemma TouchThread(s: State, r: State, t: ThreadId, id: JobId, u: ThreadId)
    requires Inv(s) && Touches(s, r, t, id) && u != t
    ensures ThreadOk(r, u)
  {
    assert ThreadOk(s, u);
    if u in r.threads {
      assert u in r.threads - {t};
      assert r.threads[u] == (r.threads - {t})[u] == (s.threads - {t})[u] == s.threads[u];
      var th := s.threads[u];
      if HasJob(th) {
        var x := JobOf(th);
        if x != id {
          assert x in s.jobs - {id} && x in s.keeper - {id};
          assert r.jobs[x] == (r.jobs - {id})[x] && r.keeper[x] == (r.keeper - {id})[x];
          if th.Enqueuer? {
            assert x in s.enqueuer - {id} && r.enqueuer[x] == (r.enqueuer - {id})[x];
          }
        } else {
          assert JobOk(s, x);
        }
      }
    }
  }

  lemma TouchJob(s: State, r: State, t: ThreadId, id: JobId, x: JobId)
    requires Inv(s) && Touches(s, r, t, id) && x != id
    ensures JobOk(r, x)
    ensures r.starts == s.starts || r.starts == s.starts + [id] ==> StartOk(r, x)
  {
    assert JobOk(s, x) && StartOk(s, x);
    if x in r.jobs {
      assert x in r.jobs - {id} && x in s.jobs - {id};
      assert r.jobs[x] == (r.jobs - {id})[x] == s.jobs[x];
      assert x in s.keeper - {id} && r.keeper[x] == (r.keeper - {id})[x] == s.keeper[x];
      if s.keeper[x].ByThread? {
        var u := s.keeper[x].t;
        assert u != t;
        assert u in s.threads - {t} && r.threads[u] == (r.threads - {t})[u];
      }
    }
  }

  lemma TouchQueue(s: State, r: State, t: ThreadId, id: JobId, i: InstanceId)
    requires Inv(s) && Touches(s, r, t, id)
    requires IsWorker(s, t) ==> IsWorker(r, t) && r.threads[t].instance == s.threads[t].instance
    ensures QueueOk(r, i)
  {
    assert QueueOk(s, i);
    var q := QueueOf(s, i);
    assert QueueOf(r, i) == q;
    if q.active && s.server[i] != t {
      assert s.server[i] in s.threads - {t} && r.threads[s.server[i]] == (r.threads - {t})[s.server[i]];
    }
    forall k | 0 <= k < |q.pending|
      ensures q.pending[k] in r.jobs && q.pending[k] in r.keeper && r.jobs[q.pending[k]].instance == i
      ensures r.jobs[q.pending[k]].phase.PhaseQueued? ==> r.keeper[q.pending[k]] == ByQueue
    {
      var x := q.pending[k];
      if x != id {
        assert x in s.jobs - {id} && x in s.keeper - {id};
        assert r.jobs[x] == (r.jobs - {id})[x] && r.keeper[x] == (r.keeper - {id})[x];
      }
    }
  }

  /** What a step owes the rest of the system: it grants or gives back at most one slot. */
  ghost predicate SlotsFollow(s: State, r: State, t: ThreadId) {
    var before := t in s.threads && HoldsSlot(s.threads[t]);
    var after := t in r.threads && HoldsSlot(r.threads[t]);
    && r.sem <= r.maxConcurrent
    && r.sem == s.sem + (if after then 1 else 0) - (if before then 1 else 0)
  }

  lemma SlotsKept(s: State, r: State, t: ThreadId)
    requires SlotsCounted(s) && SlotsFollow(s, r, t)
    requires r.threads - {t} == s.threads - {t}
    ensures SlotsCounted(r)
  {
    var a, b := SlotHolders(s.threads), SlotHolders(r.threads);
    forall u | u != t
      ensures u in a <==> u in b
    {
      assert u in s.threads <==> u in s.threads - {t};
      assert u in r.threads <==> u in r.threads - {t};
      if u in s.threads {
        assert s.threads[u] == (s.threads - {t})[u] == (r.threads - {t})[u] == r.threads[u];
      }
    }
    SameButOne(a, b, t);
  }

  lemma SameButOne(a: set<ThreadId>, b: set<ThreadId>, t: ThreadId)
    requires forall u | u != t :: u in a <==> u in b
    ensures |b| - (if t in b then 1 else 0) == |a| - (if t in a then 1 else 0)
  {
    var c := a - {t};
    assert c == b - {t};
    assert t in a ==> a == c + {t};
    assert t !in a ==> a == c;
    assert t in b ==> b == c + {t};
    assert t !in b ==> b == c;
  }

  lemma TouchInv(s: State, r: State, t: ThreadId, id: JobId)
    requires Inv(s) && Touches(s, r, t, id)
    requires IsWorker(s, t) ==> IsWorker(r, t) && r.threads[t].instance == s.threads[t].instance
    requires ThreadOk(r, t) && JobOk(r, id) && StartOk(r, id) && SlotsFollow(s, r, t)
    requires r.starts == s.starts || (r.starts == s.starts + [id] && StartsSorted(r))
    ensures Inv(r)
  {
    forall u ensures ThreadOk(r, u) {
      if u != t { TouchThread(s, r, t, id, u); }
    }
    forall i ensures QueueOk(r, i) {
      TouchQueue(s, r, t, id, i);
    }
    forall x ensures JobOk(r, x) && StartOk(r, x) {
      if x != id { TouchJob(s, r, t, id, x); }
    }
    SlotsKept(s, r, t);
    forall x | x in s.jobs
      ensures x in r.jobs && r.jobs[x].instance == s.jobs[x].instance
    {
      if x != id {
        assert x in s.jobs - {id} && r.jobs[x] == (r.jobs - {id})[x];
      }
    }
  }

  lemma RegisterInv(s: State, t: ThreadId, id: JobId, instance: InstanceId)
    requires Inv(s) && CanRegister(s, t, id, instance)
    ensures Inv(DoRegister(s, t, id, instance))
  {
    var r := DoRegister(s, t, id, instance);
    assert StartOk(s, id) && LogOk(s) && StartsSorted(s);
    assert id !in s.ticket && id !in s.starts;
    RegisterTouches(s, r, t, id, instance);
    Registered(s, r, t, id, instance);
    TouchInv(s, r, t, id);
  }

  lemma RegisterTouches(s: State, r: State, t: ThreadId, id: JobId, instance: InstanceId)
    requires CanRegister(s, t, id, instance) && r == DoRegister(s, t, id, instance)
    ensures Touches(s, r, t, id)
  {
    SameElsewhere(s.threads, t, r.threads[t]);
    SameElsewhere(s.jobs, id, r.jobs[id]);
    SameElsewhere(s.keeper, id, r.keeper[id]);
    SameElsewhere(s.enqueuer, id, r.enqueuer[id]);
  }

  lemma Registered(s: State, r: State, t: ThreadId, id: JobId, instance: InstanceId)
    requires CanRegister(s, t, id, instance) && r == DoRegister(s, t, id, instance)
    requires id !in s.ticket && id !in s.starts && SlotsCounted(s)
    ensures ThreadOk(r, t) && JobOk(r, id) && StartOk(r, id) && SlotsFollow(s, r, t)
  {
  }

  /** A worker moves on with its job, possibly updating the job's record. */
  lemma MoveInv(s: State, r: State, t: ThreadId, pc: Pc, j: JobRecord)
    requires Inv(s) && IsWorker(s, t) && HasJob(s.threads[t])
    requires HasJob(Worker(s.threads[t].instance, pc)) && pc.id == s.threads[t].pc.id && pc.id in s.jobs
    requires r == Goto(s.(jobs := s.jobs[pc.id := j], sem := r.sem, starts := r.starts), t, pc)
    requires j.instance == s.jobs[pc.id].instance
    requires j.phase.PhaseQueued? ==> s.jobs[pc.id].phase.PhaseQueued?
    requires Committed(r.threads[t]) ==> Committed(s.threads[t]) || s.jobs[pc.id].phase.PhaseQueued?
    requires JobOk(r, pc.id) && StartOk(r, pc.id) && SlotsFollow(s, r, t)
    requires r.starts == s.starts || (r.starts == s.starts + [pc.id] && StartsSorted(r))
    ensures Inv(r)
  {
    assert ThreadOk(s, t) && JobOk(s, pc.id);
    TouchInv(s, r, t, pc.id);
  }

  lemma CheckPhaseInv(s: State, t: ThreadId)
    requires Inv(s) && CanCheckPhase(s, t)
    ensures Inv(DoCheckPhase(s, t))
  {
    var r := DoCheckPhase(s, t);
    var id := s.threads[t].pc.id;
    assert ThreadOk(s, t) && JobOk(s, id) && StartOk(s, id);
    if s.jobs[id].phase.PhaseDone? {
      TouchInv(s, r, t, id);
    } else {
      assert s.jobs[id := s.jobs[id]] == s.jobs;
      MoveInv(s, r, t, Waiting(id), s.jobs[id]);
    }
  }

  lemma AcquireInv(s: State, t: ThreadId)
    requires Inv(s) && CanAcquire(s, t)
    ensures Inv(DoAcquire(s, t))
  {
    var id := s.threads[t].pc.id;
    assert ThreadOk(s, t) && JobOk(s, id) && StartOk(s, id);
    assert s.jobs[id := s.jobs[id]] == s.jobs;
    MoveInv(s, DoAcquire(s, t), t, Admitted(id), s.jobs[id]);
  }

  /** While a worker has a job in hand, nobody else can have set it running. */
  lemma InHandNotRunning(s: State, t: ThreadId)
    requires Inv(s) && IsWorker(s, t) && HasJob(s.threads[t]) && !Committed(s.threads[t])
    ensures s.threads[t].pc.id in s.jobs && !s.jobs[s.threads[t].pc.id].phase.PhaseRunning?
  {
    var id := s.threads[t].pc.id;
    assert ThreadOk(s, t) && JobOk(s, id);
    if s.keeper[id].ByThread? {
      assert ThreadOk(s, s.keeper[id].t);
    }
  }

  lemma GoRunningInv(s: State, t: ThreadId)
    requires Inv(s) && CanGoRunning(s, t)
    ensures Inv(DoGoRunning(s, t))
  {
    var r := DoGoRunning(s, t);
    var id := s.threads[t].pc.id;
    assert ThreadOk(s, t) && JobOk(s, id) && StartOk(s, id);
    if s.jobs[id].phase.PhaseDone? {
      TouchInv(s, r, t, id);
    } else {
      InHandNotRunning(s, t);
      StartNewest(s, t);
      MoveInv(s, r, t, Opening(id), s.jobs[id].(phase := PhaseRunning));
    }
  }

  /** The job a worker holds is newer than every job of its instance started so far. */
  lemma StartNewest(s: State, t: ThreadId)
    requires Inv(s) && CanGoRunning(s, t) && !s.jobs[s.threads[t].pc.id].phase.PhaseDone?
    ensures StartsSorted(DoGoRunning(s, t))
  {
    var r := DoGoRunning(s, t);
    var id := s.threads[t].pc.id;
    assert ThreadOk(s, t) && JobOk(s, id) && StartOk(s, id);
    forall k, l | 0 <= k < l < |r.starts|
      ensures r.starts[k] != r.starts[l]
      ensures r.jobs[r.starts[k]].instance == r.jobs[r.starts[l]].instance ==>
                r.ticket[r.starts[k]] < r.ticket[r.starts[l]]
    {
      InHandNotRunning(s, t);
      var x := r.starts[k];
      assert x == s.starts[k] && x in s.starts && StartOk(s, x) && JobOk(s, x);
    }
  }

  lemma OpenLogInv(s: State, t: ThreadId, ok: bool)
    requires Inv(s) && CanOpenLog(s, t, ok)
    ensures Inv(DoOpenLog(s, t, ok))
  {
    var id := s.threads[t].pc.id;
    assert ThreadOk(s, t) && JobOk(s, id) && StartOk(s, id);
    assert s.jobs[id := s.jobs[id]] == s.jobs;
    MoveInv(s, DoOpenLog(s, t, ok), t, if ok then Starting(id) else Finishing(id, Failed), s.jobs[id]);
  }

  lemma MarkRunningInv(s: State, t: ThreadId)
    requires Inv(s) && CanMarkRunning(s, t)
    ensures Inv(DoMarkRunning(s, t))
  {
    var id := s.threads[t].pc.id;
    assert ThreadOk(s, t) && JobOk(s, id) && StartOk(s, id);
    MoveInv(s, DoMarkRunning(s, t), t, Invoking(id), s.jobs[id].(status := Running));
  }

  lemma InvokeInv(s: State, t: ThreadId)
    requires Inv(s) && CanInvoke(s, t)
    ensures Inv(DoInvoke(s, t))
  {
    var id := s.threads[t].pc.id;
    assert ThreadOk(s, t) && JobOk(s, id) && StartOk(s, id);
    MoveInv(s, DoInvoke(s, t), t, Executing(id), s.jobs[id].(invocations := s.jobs[id].invocations + 1));
  }

  lemma ReturnInv(s: State, t: ThreadId, outcome: Outcome)
    requires Inv(s) && CanReturn(s, t, outcome)
    ensures Inv(DoReturn(s, t, outcome))
  {
    var id := s.threads[t].pc.id;
    assert ThreadOk(s, t) && JobOk(s, id) && StartOk(s, id);
    assert s.jobs[id := s.jobs[id]] == s.jobs;
    MoveInv(s, DoReturn(s, t, outcome), t, Returned(id, outcome), s.jobs[id]);
  }

  lemma DecideInv(s: State, t: ThreadId)
    requires Inv(s) && CanDecide(s, t)
    ensures Inv(DoDecide(s, t))
  {
    var id := s.threads[t].pc.id;
    assert ThreadOk(s, t) && JobOk(s, id) && StartOk(s, id);
    assert s.jobs[id := s.jobs[id]] == s.jobs;
    var verdict := Verdict(s.threads[t].pc.outcome, s.jobs[id].cancelRequested);
    MoveInv(s, DoDecide(s, t), t, Finishing(id, verdict), s.jobs[id]);
  }

  lemma SettleInv(s: State, t: ThreadId)
    requires Inv(s) && CanSettle(s, t)
    ensures Inv(DoSettle(s, t))
  {
    var r := DoSettle(s, t);
    var id := JobOf(s.threads[t]);
    assert ThreadOk(s, t) && JobOk(s, id) && StartOk(s, id);
    SettleTouches(s, r, t);
    Settled(s, r, t);
    TouchInv(s, r, t, id);
  }

  lemma SettleTouches(s: State, r: State, t: ThreadId)
    requires CanSettle(s, t) && r == DoSettle(s, t) && SlotsCounted(s) && JobOf(s.threads[t]) in s.keeper
    ensures Touches(s, r, t, JobOf(s.threads[t])) && SlotsFollow(s, r, t)
  {
    var id := JobOf(s.threads[t]);
    SameElsewhere(s.threads, t, r.threads[t]);
    SameElsewhere(s.jobs, id, r.jobs[id]);
    assert r.threads == s.threads[t := r.threads[t]] && r.jobs == s.jobs[id := r.jobs[id]];
    assert r.keeper == s.keeper && r.enqueuer == s.enqueuer;
  }

  lemma Settled(s: State, r: State, t: ThreadId)
    requires CanSettle(s, t) && r == DoSettle(s, t) && ThreadOk(s, t)
    requires JobOk(s, JobOf(s.threads[t])) && StartOk(s, JobOf(s.threads[t]))
    ensures ThreadOk(r, t) && JobOk(r, JobOf(s.threads[t])) && StartOk(r, JobOf(s.threads[t]))
  {
  }

  lemma CloseInv(s: State, t: ThreadId)
    requires Inv(s) && CanClose(s, t)
    ensures Inv(DoClose(s, t))
  {
    var id := JobOf(s.threads[t]);
    assert ThreadOk(s, t) && JobOk(s, id) && StartOk(s, id);
    ClosedOnce(s, DoClose(s, t), t, id);
  }

  lemma ClosedOnce(s: State, r: State, t: ThreadId, id: JobId)
    requires Inv(s) && t in s.threads && HasJob(s.threads[t]) && JobOf(s.threads[t]) == id
    requires id in s.jobs && s.jobs[id].phase.PhaseDone? && s.jobs[id].status.Terminal()
    requires Committed(s.threads[t])
    requires s.threads[t].Worker? ==> s.threads[t].pc.Closing?
    requires r == s.(jobs := s.jobs[id := s.jobs[id].(closes := s.jobs[id].closes + 1)],
                     keeper := s.keeper[id := Nobody],
                     threads := if s.threads[t].Worker? then s.threads[t := s.threads[t].(pc := Releasing)]
                                else s.threads - {t})
    ensures Inv(r)
  {
    assert ThreadOk(s, t) && JobOk(s, id) && StartOk(s, id);
    TouchInv(s, r, t, id);
  }

  lemma ReleaseInv(s: State, t: ThreadId)
    requires Inv(s) && CanRelease(s, t)
    ensures Inv(DoRelease(s, t))
  {
    assert ThreadOk(s, t) && JobOk(s, 0) && StartOk(s, 0);
    Released(s, DoRelease(s, t), t, 0);
    TouchInv(s, DoRelease(s, t), t, 0);
  }

  lemma Released(s: State, r: State, t: ThreadId, id: JobId)
    requires CanRelease(s, t) && r == DoRelease(s, t) && ThreadOk(s, t) && JobOk(s, id) && StartOk(s, id) && SlotsCounted(s)
    ensures Touches(s, r, t, id) && ThreadOk(r, t) && JobOk(r, id) && StartOk(r, id) && SlotsFollow(s, r, t)
  {
  }

  lemma CancelRunningInv(s: State, id: JobId)
    requires Inv(s) && CanCancelRunning(s, id)
    ensures Inv(DoCancelRunning(s, id))
  {
    assert JobOk(s, id) && StartOk(s, id);
    var t := s.keeper[id].t;
    assert ThreadOk(s, t);
    TouchInv(s, DoCancelRunning(s, id), t, id);
  }

  lemma CancelQueuedInv(s: State, t: ThreadId, id: JobId)
    requires Inv(s) && CanCancelQueued(s, t, id)
    ensures Inv(DoCancelQueued(s, t, id))
  {
    assert JobOk(s, id) && StartOk(s, id);
    TouchInv(s, DoCancelQueued(s, t, id), t, id);
  }

  // ------------------------------------------------------------ steps that change a queue

  lemma RetireInv(s: State, t: ThreadId)
    requires Inv(s) && CanRetire(s, t)
    ensures Inv(DoRetire(s, t))
  {
    var r := DoRetire(s, t);
    var instance := s.threads[t].instance;
    assert ThreadOk(s, t);
    forall u ensures ThreadOk(r, u) {
      assert ThreadOk(s, u);
    }
    forall i ensures QueueOk(r, i) {
      assert QueueOk(s, i);
    }
    forall x ensures JobOk(r, x) && StartOk(r, x) {
      assert JobOk(s, x) && StartOk(s, x);
    }
    SlotsKept(s, r, t);
  }

  lemma PopInv(s: State, t: ThreadId)
    requires Inv(s) && CanPop(s, t)
    ensures Inv(DoPop(s, t))
  {
    var r := DoPop(s, t);
    forall u ensures ThreadOk(r, u) {
      PopThread(s, t, u);
    }
    forall i ensures QueueOk(r, i) {
      PopQueue(s, t, i);
    }
    forall x ensures JobOk(r, x) && StartOk(r, x) {
      PopJob(s, t, x);
    }
    SlotsKept(s, r, t);
  }

  lemma PopThread(s: State, t: ThreadId, u: ThreadId)
    requires Inv(s) && CanPop(s, t)
    ensures ThreadOk(DoPop(s, t), u)
  {
    var id := QueueOf(s, s.threads[t].instance).pending[0];
    assert ThreadOk(s, t) && ThreadOk(s, u) && QueueOk(s, s.threads[t].instance) && JobOk(s, id);
  }

  lemma PopQueue(s: State, t: ThreadId, i: InstanceId)
    requires Inv(s) && CanPop(s, t)
    ensures QueueOk(DoPop(s, t), i)
  {
    var instance := s.threads[t].instance;
    assert ThreadOk(s, t) && QueueOk(s, i) && QueueOk(s, instance) && JobOk(s, QueueOf(s, instance).pending[0]);
    if i == instance {
      PopOwnQueue(s, t);
    } else {
      PopOtherQueue(s, t, i);
    }
  }

  lemma PopOwnQueue(s: State, t: ThreadId)
    requires CanPop(s, t) && ThreadOk(s, t) && QueueOk(s, s.threads[t].instance)
    requires JobOk(s, QueueOf(s, s.threads[t].instance).pending[0])
    ensures QueueOk(DoPop(s, t), s.threads[t].instance)
  {
  }

  lemma PopOtherQueue(s: State, t: ThreadId, i: InstanceId)
    requires CanPop(s, t) && ThreadOk(s, t) && QueueOk(s, s.threads[t].instance) && i != s.threads[t].instance
    requires JobOk(s, QueueOf(s, s.threads[t].instance).pending[0]) && QueueOk(s, i)
    ensures QueueOk(DoPop(s, t), i)
  {
    if QueueOf(s, i).active {
      assert s.server[i] != t;
    }
  }

  lemma PopJob(s: State, t: ThreadId, x: JobId)
    requires Inv(s) && CanPop(s, t)
    ensures JobOk(DoPop(s, t), x) && StartOk(DoPop(s, t), x)
  {
    var instance := s.threads[t].instance;
    assert ThreadOk(s, t) && QueueOk(s, instance) && JobOk(s, QueueOf(s, instance).pending[0]);
    assert JobOk(s, x) && StartOk(s, x);
    PopOneJob(s, t, x);
  }

  lemma PopOneJob(s: State, t: ThreadId, x: JobId)
    requires CanPop(s, t) && ThreadOk(s, t) && QueueOk(s, s.threads[t].instance) && JobOk(s, x) && StartOk(s, x)
    requires JobOk(s, QueueOf(s, s.threads[t].instance).pending[0])
    ensures JobOk(DoPop(s, t), x) && StartOk(DoPop(s, t), x)
  {
  }

  lemma AppendInv(s: State, t: ThreadId, w: ThreadId)
    requires Inv(s) && CanAppend(s, t, w)
    ensures Inv(DoAppend(s, t, w))
  {
    var r := DoAppend(s, t, w);
    forall u ensures ThreadOk(r, u) {
      AppendThread(s, t, w, u);
    }
    forall i ensures QueueOk(r, i) {
      AppendQueue(s, t, w, i);
    }
    forall x ensures JobOk(r, x) && StartOk(r, x) {
      AppendJob(s, t, w, x);
    }
    assert SlotHolders(r.threads) == SlotHolders(s.threads);
    assert ThreadOk(s, t);
  }

  lemma AppendThread(s: State, t: ThreadId, w: ThreadId, u: ThreadId)
    requires Inv(s) && CanAppend(s, t, w)
    ensures ThreadOk(DoAppend(s, t, w), u)
  {
    var id := s.threads[t].job;
    assert ThreadOk(s, t) && ThreadOk(s, u) && QueueOk(s, s.jobs[id].instance) && JobOk(s, id);
  }

  lemma AppendQueue(s: State, t: ThreadId, w: ThreadId, i: InstanceId)
    requires Inv(s) && CanAppend(s, t, w)
    ensures QueueOk(DoAppend(s, t, w), i)
  {
    var id := s.threads[t].job;
    assert ThreadOk(s, t) && QueueOk(s, i) && JobOk(s, id);
    AppendPending(s, id, i, DoAppend(s, t, w).keeper[id]);
    if i == s.jobs[id].instance {
      AppendOwnQueue(s, t, w);
    } else {
      AppendOtherQueue(s, t, w, i);
    }
  }

  /** The pending jobs of queue i once job id was appended. */
  ghost predicate AppendedOk(s: State, id: JobId, i: InstanceId, k: Keeper)
    requires id in s.jobs
  {
    var pending := QueueOf(s, i).pending;
    PendingOk(if i == s.jobs[id].instance then pending + [id] else pending, i, s.jobs, s.keeper[id := k],
              s.ticket[id := |s.appended|], Served(s, i))
  }

  lemma AppendOwnQueue(s: State, t: ThreadId, w: ThreadId)
    requires CanAppend(s, t, w) && ThreadOk(s, t) && QueueOk(s, s.jobs[s.threads[t].job].instance)
    requires AppendedOk(s, s.threads[t].job, s.jobs[s.threads[t].job].instance, DoAppend(s, t, w).keeper[s.threads[t].job])
    ensures QueueOk(DoAppend(s, t, w), s.jobs[s.threads[t].job].instance)
  {
    var r, id := DoAppend(s, t, w), s.threads[t].job;
    var i := s.jobs[id].instance;
    assert QueueOf(r, i) == JobQueue(QueueOf(s, i).pending + [id], true) && Served(r, i) == Served(s, i);
    assert r.keeper == s.keeper[id := r.keeper[id]];
  }

  lemma AppendOtherQueue(s: State, t: ThreadId, w: ThreadId, i: InstanceId)
    requires CanAppend(s, t, w) && ThreadOk(s, t) && QueueOk(s, i) && i != s.jobs[s.threads[t].job].instance
    requires AppendedOk(s, s.threads[t].job, i, DoAppend(s, t, w).keeper[s.threads[t].job])
    ensures QueueOk(DoAppend(s, t, w), i)
  {
    var r, id := DoAppend(s, t, w), s.threads[t].job;
    assert QueueOf(r, i) == QueueOf(s, i) && Served(r, i) == Served(s, i);
    assert r.keeper == s.keeper[id := r.keeper[id]];
    if QueueOf(s, i).active {
      assert s.server[i] != t && s.server[i] != w;
    }
  }

  lemma AppendPending(s: State, id: JobId, i: InstanceId, k: Keeper)
    requires Inv(s) && id in s.jobs && id !in s.ticket && id in s.keeper
    requires s.jobs[id].phase.PhaseQueued? ==> k == ByQueue
    ensures AppendedOk(s, id, i, k)
  {
    assert QueueOk(s, i);
    var pending := QueueOf(s, i).pending;
    forall m | 0 <= m < |pending|
      ensures pending[m] != id && s.ticket[pending[m]] < |s.appended|
    {
      assert JobOk(s, pending[m]);
    }
  }

  lemma AppendJob(s: State, t: ThreadId, w: ThreadId, x: JobId)
    requires Inv(s) && CanAppend(s, t, w)
    ensures JobOk(DoAppend(s, t, w), x) && StartOk(DoAppend(s, t, w), x)
  {
    assert ThreadOk(s, t) && JobOk(s, s.threads[t].job) && JobOk(s, x) && StartOk(s, x);
    AppendOneJob(s, t, w, x);
  }

  lemma AppendOneJob(s: State, t: ThreadId, w: ThreadId, x: JobId)
    requires CanAppend(s, t, w) && ThreadOk(s, t) && JobOk(s, s.threads[t].job) && JobOk(s, x) && StartOk(s, x)
    ensures JobOk(DoAppend(s, t, w), x) && StartOk(DoAppend(s, t, w), x)
  {
  }

  lemma {:induction false} RemoveFirstCuts(pending: seq<JobId>, id: JobId) returns (k: nat)
    ensures k <= |pending| && id !in pending[..k]
    ensures k == |pending| ==> RemoveFirst(pending, id) == pending
    ensures k < |pending| ==> pending[k] == id && RemoveFirst(pending, id) == pending[..k] + pending[k + 1..]
  {
    if pending == [] || pending[0] == id {
      k := 0;
    } else {
      var m := RemoveFirstCuts(pending[1..], id);
      k := m + 1;
      assert pending[..k] == [pending[0]] + pending[1..][..m];
      assert k < |pending| ==> pending[k + 1..] == pending[1..][m + 1..];
    }
  }

  lemma {:induction false} RemoveFirstSpares(pending: seq<JobId>, id: JobId, x: JobId)
    requires x in pending && x != id
    ensures x in RemoveFirst(pending, id)
  {
    if pending[0] != id && pending[0] != x {
      RemoveFirstSpares(pending[1..], id, x);
    }
  }

  lemma UnlinkInv(s: State, t: ThreadId)
    requires Inv(s) && CanUnlink(s, t)
    ensures Inv(DoUnlink(s, t))
  {
    var r := DoUnlink(s, t);
    forall u ensures ThreadOk(r, u) {
      UnlinkThread(s, t, u);
    }
    forall i ensures QueueOk(r, i) {
      UnlinkQueue(s, t, i);
    }
    forall x ensures JobOk(r, x) && StartOk(r, x) {
      UnlinkJob(s, t, x);
    }
    SlotsKept(s, r, t);
  }

  lemma UnlinkThread(s: State, t: ThreadId, u: ThreadId)
    requires Inv(s) && CanUnlink(s, t)
    ensures ThreadOk(DoUnlink(s, t), u)
  {
    assert ThreadOk(s, t) && ThreadOk(s, u);
  }

  lemma UnlinkQueue(s: State, t: ThreadId, i: InstanceId)
    requires Inv(s) && CanUnlink(s, t)
    ensures QueueOk(DoUnlink(s, t), i)
  {
    assert ThreadOk(s, t) && QueueOk(s, i) && JobOk(s, s.threads[t].job);
    UnlinkPending(s, s.threads[t].job, i);
    UnlinkOneQueue(s, t, i);
  }

  lemma UnlinkPending(s: State, id: JobId, i: InstanceId)
    requires QueueOk(s, i)
    ensures PendingOk(RemoveFirst(QueueOf(s, i).pending, id), i, s.jobs, s.keeper, s.ticket, Served(s, i))
    ensures QueueOf(s, i).pending == [] ==> RemoveFirst(QueueOf(s, i).pending, id) == []
  {
    var pending := QueueOf(s, i).pending;
    var c := RemoveFirstCuts(pending, id);
    var rest := RemoveFirst(pending, id);
    assert forall k | 0 <= k < |rest| :: rest[k] == pending[if k < c then k else k + 1];
  }

  lemma UnlinkOneQueue(s: State, t: ThreadId, i: InstanceId)
    requires CanUnlink(s, t) && ThreadOk(s, t) && QueueOk(s, i)
    requires PendingOk(RemoveFirst(QueueOf(s, i).pending, s.threads[t].job), i, s.jobs, s.keeper, s.ticket, Served(s, i))
    requires QueueOf(s, i).pending == [] ==> RemoveFirst(QueueOf(s, i).pending, s.threads[t].job) == []
    ensures QueueOk(DoUnlink(s, t), i)
  {
  }

  lemma UnlinkJob(s: State, t: ThreadId, x: JobId)
    requires Inv(s) && CanUnlink(s, t)
    ensures JobOk(DoUnlink(s, t), x) && StartOk(DoUnlink(s, t), x)
  {
    var id := s.threads[t].job;
    assert ThreadOk(s, t) && JobOk(s, id) && JobOk(s, x) && StartOk(s, x);
    if x in s.jobs && s.keeper[x].ByQueue? {
      assert x != id;
      if s.jobs[x].instance == s.jobs[id].instance {
        RemoveFirstSpares(QueueOf(s, s.jobs[id].instance).pending, id, x);
      }
    }
  }
}
