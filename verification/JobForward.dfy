/**
 Each step of the runner moves every job forward only.

 `Forward` compares the records of one job in two states: its status climbs from queued to running to a terminal one and
 stays there, its counts do not fall, a request to cancel it stands, and nothing changes once its done channel is closed. `NeverRan` marks a job that
 was cancelled in its queue. Steps that leave all records alone are taken together, the others one by one.
 */
module JobForward {
  import opened JobInvariants
  import opened JobProtocol

  /** How a job may change: forwards only, and not at all once its done channel is closed. */
  ghost predicate Forward(a: JobRecord, b: JobRecord) {
    && b.instance == a.instance
    && a.status.Rank() <= b.status.Rank()
    && (a.status.Terminal() ==> b.status == a.status)
    && a.closes <= b.closes && a.invocations <= b.invocations
    && (a.phase.PhaseDone? ==> b.phase.PhaseDone?)
    && (a.cancelRequested ==> b.cancelRequested)
    && (a.closes == 1 ==> b == a)
  }

  /** Cancelled while it was still queued: finished without ever having been started. */
  ghost predicate NeverRan(s: State, id: JobId) {
    id in s.jobs && id !in s.starts && s.jobs[id].phase.PhaseDone?
  }

  predicate LeavesJobs(step: Step) {
    step.Append? || step.Pop? || step.Retire? || step.CheckPhase? || step.Acquire? || step.OpenLog? || step.Return?
    || step.Decide? || step.Release? || step.Unlink?
  }

  lemma JobsLeft(s: State, step: Step)
    requires Enabled(s, step) && LeavesJobs(step)
    ensures Apply(s, step).jobs == s.jobs && Apply(s, step).starts == s.starts
  {
    match step
    case Append(t, w) => assert DoAppend(s, t, w).jobs == s.jobs && DoAppend(s, t, w).starts == s.starts;
    case Pop(t) => assert DoPop(s, t).jobs == s.jobs && DoPop(s, t).starts == s.starts;
    case Retire(t) => assert DoRetire(s, t).jobs == s.jobs && DoRetire(s, t).starts == s.starts;
    case CheckPhase(t) => assert DoCheckPhase(s, t).jobs == s.jobs && DoCheckPhase(s, t).starts == s.starts;
    case Acquire(t) => assert DoAcquire(s, t).jobs == s.jobs && DoAcquire(s, t).starts == s.starts;
    case OpenLog(t, ok) => assert DoOpenLog(s, t, ok).jobs == s.jobs && DoOpenLog(s, t, ok).starts == s.starts;
    case Return(t, o) => assert DoReturn(s, t, o).jobs == s.jobs && DoReturn(s, t, o).starts == s.starts;
    case Decide(t) => assert DoDecide(s, t).jobs == s.jobs && DoDecide(s, t).starts == s.starts;
    case Release(t) => assert DoRelease(s, t).jobs == s.jobs && DoRelease(s, t).starts == s.starts;
    case Unlink(t) => assert DoUnlink(s, t).jobs == s.jobs && DoUnlink(s, t).starts == s.starts;
  }

  ghost predicate MovesOn(s: State, r: State, id: JobId)
    requires id in s.jobs
  {
    id in r.jobs && Forward(s.jobs[id], r.jobs[id]) && (NeverRan(s, id) ==> NeverRan(r, id))
  }

  /** The thread is the one to finish its job, and the job is as far as its program counter says. */
  ghost predicate Owns(s: State, t: ThreadId) {
    && t in s.threads && HasJob(s.threads[t]) && JobOf(s.threads[t]) in s.jobs
    && Matches(s.threads[t], s.jobs[JobOf(s.threads[t])]) && s.jobs[JobOf(s.threads[t])].closes == 0
  }

  /** Records that are the same have moved on, and so have runs of the same starts. */
  lemma SameMovesOn(s: State, r: State, x: JobId)
    requires x in s.jobs && x in r.jobs && r.jobs[x] == s.jobs[x] && (x in r.starts ==> x in s.starts)
    ensures MovesOn(s, r, x)
  {
  }

  lemma GoRunningForward(s: State, t: ThreadId, x: JobId)
    requires JobOk(s, x) && CanGoRunning(s, t) && x in s.jobs
    ensures MovesOn(s, DoGoRunning(s, t), x)
  {
    var r, id := DoGoRunning(s, t), s.threads[t].pc.id;
    if x != id || s.jobs[id].phase.PhaseDone? {
      SameMovesOn(s, r, x);
    } else {
      assert r.jobs[x] == s.jobs[x].(phase := PhaseRunning);
    }
  }

  lemma MarkRunningForward(s: State, t: ThreadId, x: JobId)
    requires Owns(s, t) && CanMarkRunning(s, t) && x in s.jobs
    ensures MovesOn(s, DoMarkRunning(s, t), x)
  {
    var r := DoMarkRunning(s, t);
    if x != s.threads[t].pc.id {
      SameMovesOn(s, r, x);
    } else {
      assert r.jobs[x] == s.jobs[x].(status := Running) && r.starts == s.starts;
    }
  }

  lemma InvokeForward(s: State, t: ThreadId, x: JobId)
    requires Owns(s, t) && CanInvoke(s, t) && x in s.jobs
    ensures MovesOn(s, DoInvoke(s, t), x)
  {
    var r := DoInvoke(s, t);
    if x != s.threads[t].pc.id {
      SameMovesOn(s, r, x);
    } else {
      assert r.jobs[x] == s.jobs[x].(invocations := s.jobs[x].invocations + 1) && r.starts == s.starts;
    }
  }

  lemma SettleForward(s: State, t: ThreadId, x: JobId)
    requires Owns(s, t) && CanSettle(s, t) && x in s.jobs
    ensures MovesOn(s, DoSettle(s, t), x)
  {
    var r, status := DoSettle(s, t), if s.threads[t].Worker? then s.threads[t].pc.verdict else Cancelled;
    if x != JobOf(s.threads[t]) {
      SameMovesOn(s, r, x);
    } else {
      assert r.jobs[x] == s.jobs[x].(status := status, phase := PhaseDone) && r.starts == s.starts;
      assert !s.jobs[x].status.Terminal() && status.Terminal();
    }
  }

  lemma CloseForward(s: State, t: ThreadId, x: JobId)
    requires Owns(s, t) && CanClose(s, t) && x in s.jobs
    ensures MovesOn(s, DoClose(s, t), x)
  {
    var r := DoClose(s, t);
    if x != JobOf(s.threads[t]) {
      SameMovesOn(s, r, x);
    } else {
      assert r.jobs[x] == s.jobs[x].(closes := s.jobs[x].closes + 1) && r.starts == s.starts;
    }
  }

  lemma RegisterForward(s: State, t: ThreadId, id: JobId, instance: InstanceId, x: JobId)
    requires CanRegister(s, t, id, instance) && x in s.jobs
    ensures MovesOn(s, DoRegister(s, t, id, instance), x)
  {
  }

  lemma CancelForward(s: State, t: ThreadId, id: JobId, x: JobId)
    requires JobOk(s, x) && x in s.jobs
    ensures CanCancelRunning(s, id) ==> MovesOn(s, DoCancelRunning(s, id), x)
    ensures CanCancelQueued(s, t, id) ==> MovesOn(s, DoCancelQueued(s, t, id), x)
  {
  }

  lemma StepForward(s: State, step: Step, id: JobId)
    requires Inv(s) && Enabled(s, step) && id in s.jobs
    ensures MovesOn(s, Apply(s, step), id)
  {
    if LeavesJobs(step) {
      JobsLeft(s, step);
    } else {
      assert JobOk(s, id);
      match step
      case Register(t, x, instance) => RegisterForward(s, t, x, instance, id);
      case GoRunning(t) => GoRunningForward(s, t, id);
      case MarkRunning(t) => OwnJob(s, t); MarkRunningForward(s, t, id);
      case Invoke(t) => OwnJob(s, t); InvokeForward(s, t, id);
      case Settle(t) => OwnJob(s, t); SettleForward(s, t, id);
      case Close(t) => OwnJob(s, t); CloseForward(s, t, id);
      case CancelRunning(x) => CancelForward(s, 0, x, id);
      case CancelQueued(t, x) => CancelForward(s, t, x, id);
    }
  }

  lemma OwnJob(s: State, t: ThreadId)
    requires Inv(s) && t in s.threads && Committed(s.threads[t])
    ensures Owns(s, t)
  {
    assert ThreadOk(s, t) && JobOk(s, JobOf(s.threads[t]));
  }
}
