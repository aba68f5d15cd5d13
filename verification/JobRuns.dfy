/** What holds of every run of the job runner: internal/jobs/runner.go:243-489. */
module JobRuns {
  import opened JobForward
  import opened JobInvariants
  import opened JobProtocol

  lemma StepInv(s: State, step: Step)
    requires Inv(s) && Enabled(s, step)
    ensures Inv(Apply(s, step))
  {
    match step
    case Register(t, id, instance) => RegisterInv(s, t, id, instance);
    case Append(t, w) => AppendInv(s, t, w);
    case Pop(t) => PopInv(s, t);
    case Retire(t) => RetireInv(s, t);
    case CheckPhase(t) => CheckPhaseInv(s, t);
    case Acquire(t) => AcquireInv(s, t);
    case GoRunning(t) => GoRunningInv(s, t);
    case OpenLog(t, ok) => OpenLogInv(s, t, ok);
    case MarkRunning(t) => MarkRunningInv(s, t);
    case Invoke(t) => InvokeInv(s, t);
    case Return(t, outcome) => ReturnInv(s, t, outcome);
    case Decide(t) => DecideInv(s, t);
    case Settle(t) => SettleInv(s, t);
    case Close(t) => CloseInv(s, t);
    case Release(t) => ReleaseInv(s, t);
    case CancelRunning(id) => CancelRunningInv(s, id);
    case CancelQueued(t, id) => CancelQueuedInv(s, t, id);
    case Unlink(t) => UnlinkInv(s, t);
  }

  /** One interleaving: `steps[k]` leads from `states[k]` to `states[k + 1]`. */
  ghost predicate IsRun(states: seq<State>, steps: seq<Step>) {
    && |states| == |steps| + 1
    && forall k {:trigger steps[k]} | 0 <= k < |steps| ::
         Enabled(states[k], steps[k]) && states[k + 1] == Apply(states[k], steps[k])
  }

  lemma {:induction false} RunInv(states: seq<State>, steps: seq<Step>, k: nat)
    requires IsRun(states, steps) && Inv(states[0]) && k < |states|
    ensures Inv(states[k])
  {
    if k > 0 {
      RunInv(states, steps, k - 1);
      StepInv(states[k - 1], steps[k - 1]);
    }
  }

  // ------------------------------------------------------------ safety in every state

  /** No lost wakeup: work waiting means a live worker; and never two workers for one instance. */
  ghost predicate OneWorkerPerQueue(s: State) {
    && (forall i | QueueOf(s, i).pending != [] :: exists t :: IsWorker(s, t) && s.threads[t].instance == i)
    && (forall t, u | IsWorker(s, t) && IsWorker(s, u) && s.threads[t].instance == s.threads[u].instance :: t == u)
  }

  ghost predicate WithinCap(s: State) {
    |SlotHolders(s.threads)| <= s.maxConcurrent
  }

  /** No two threads are past the point of finishing the same job. */
  ghost predicate OneFinisher(s: State) {
    forall t, u | t in s.threads && u in s.threads && Committed(s.threads[t]) && Committed(s.threads[u])
                  && JobOf(s.threads[t]) == JobOf(s.threads[u]) :: t == u
  }

  ghost predicate AtMostOnce(s: State) {
    forall id | id in s.jobs ::
      var j := s.jobs[id];
      && j.closes <= 1 && j.invocations <= 1
      && (j.closes == 1 ==> j.status.Terminal())
      && (j.status.Succeeded? ==> j.invocations == 1)
      && (id !in s.starts && j.phase.PhaseDone? ==> j.invocations == 0)
  }

  lemma Safety(max: nat, states: seq<State>, steps: seq<Step>, k: nat)
    requires IsRun(states, steps) && states[0] == Init(max) && k < |states|
    ensures OneWorkerPerQueue(states[k]) && WithinCap(states[k]) && states[k].maxConcurrent == max
    ensures OneFinisher(states[k]) && AtMostOnce(states[k])
  {
    InitInv(max);
    RunInv(states, steps, k);
    InvSafe(states[k]);
    CapFixed(states, steps, k);
  }

  lemma {:induction false} CapFixed(states: seq<State>, steps: seq<Step>, k: nat)
    requires IsRun(states, steps) && k < |states|
    ensures states[k].maxConcurrent == states[0].maxConcurrent
  {
    if k > 0 {
      CapFixed(states, steps, k - 1);
      StepCap(states[k - 1], steps[k - 1]);
    }
  }

  lemma StepCap(s: State, step: Step)
    requires Enabled(s, step)
    ensures Apply(s, step).maxConcurrent == s.maxConcurrent
  {
    match step
    case Register(t, id, instance) => assert DoRegister(s, t, id, instance).maxConcurrent == s.maxConcurrent;
    case Append(t, w) => assert DoAppend(s, t, w).maxConcurrent == s.maxConcurrent;
    case Pop(t) => assert DoPop(s, t).maxConcurrent == s.maxConcurrent;
    case Retire(t) => assert DoRetire(s, t).maxConcurrent == s.maxConcurrent;
    case CheckPhase(t) => assert DoCheckPhase(s, t).maxConcurrent == s.maxConcurrent;
    case Acquire(t) => assert DoAcquire(s, t).maxConcurrent == s.maxConcurrent;
    case GoRunning(t) => assert DoGoRunning(s, t).maxConcurrent == s.maxConcurrent;
    case OpenLog(t, ok) => assert DoOpenLog(s, t, ok).maxConcurrent == s.maxConcurrent;
    case MarkRunning(t) => assert DoMarkRunning(s, t).maxConcurrent == s.maxConcurrent;
    case Invoke(t) => assert DoInvoke(s, t).maxConcurrent == s.maxConcurrent;
    case Return(t, outcome) => assert DoReturn(s, t, outcome).maxConcurrent == s.maxConcurrent;
    case Decide(t) => assert DoDecide(s, t).maxConcurrent == s.maxConcurrent;
    case Settle(t) => assert DoSettle(s, t).maxConcurrent == s.maxConcurrent;
    case Close(t) => assert DoClose(s, t).maxConcurrent == s.maxConcurrent;
    case Release(t) => assert DoRelease(s, t).maxConcurrent == s.maxConcurrent;
    case CancelRunning(id) => assert DoCancelRunning(s, id).maxConcurrent == s.maxConcurrent;
    case CancelQueued(t, id) => assert DoCancelQueued(s, t, id).maxConcurrent == s.maxConcurrent;
    case Unlink(t) => assert DoUnlink(s, t).maxConcurrent == s.maxConcurrent;
  }

  lemma InvSafe(s: State)
    requires Inv(s)
    ensures OneWorkerPerQueue(s) && WithinCap(s) && OneFinisher(s) && AtMostOnce(s)
  {
    forall i | QueueOf(s, i).pending != []
      ensures exists t :: IsWorker(s, t) && s.threads[t].instance == i
    {
      assert QueueOk(s, i);
    }
    forall t, u | IsWorker(s, t) && IsWorker(s, u) && s.threads[t].instance == s.threads[u].instance
      ensures t == u
    {
      assert ThreadOk(s, t) && ThreadOk(s, u);
    }
    forall t, u | t in s.threads && u in s.threads && Committed(s.threads[t]) && Committed(s.threads[u])
                  && JobOf(s.threads[t]) == JobOf(s.threads[u])
      ensures t == u
    {
      assert ThreadOk(s, t) && ThreadOk(s, u);
    }
    forall id | id in s.jobs
      ensures var j := s.jobs[id];
              && j.closes <= 1 && j.invocations <= 1
              && (j.closes == 1 ==> j.status.Terminal())
              && (j.status.Succeeded? ==> j.invocations == 1)
              && (id !in s.starts && j.phase.PhaseDone? ==> j.invocations == 0)
    {
      assert JobOk(s, id) && StartOk(s, id);
    }
  }

  // ------------------------------------------------------------ the life of one job

  lemma StepLife(states: seq<State>, steps: seq<Step>, id: JobId, k: nat)
    requires IsRun(states, steps) && Inv(states[0]) && k < |steps| && id in states[k].jobs
    ensures id in states[k + 1].jobs && Forward(states[k].jobs[id], states[k + 1].jobs[id])
    ensures NeverRan(states[k], id) ==> NeverRan(states[k + 1], id)
  {
    RunInv(states, steps, k);
    StepForward(states[k], steps[k], id);
  }

  /** Between any two states of a run a job only moves forward, and a job cancelled in its queue never runs. */
  lemma {:induction false} Life(states: seq<State>, steps: seq<Step>, id: JobId, k: nat, l: nat)
    requires IsRun(states, steps) && Inv(states[0]) && k <= l < |states| && id in states[k].jobs
    ensures id in states[l].jobs && Forward(states[k].jobs[id], states[l].jobs[id])
    ensures NeverRan(states[k], id) ==> NeverRan(states[l], id) && states[l].jobs[id].invocations == 0
  {
    RunInv(states, steps, l);
    assert StartOk(states[l], id);
    if k < l {
      Life(states, steps, id, k, l - 1);
      StepLife(states, steps, id, l - 1);
    }
  }

  /** WaitFor's done branch: once the channel is closed the snapshot is terminal and final. */
  lemma WaitForSeesFinalState(states: seq<State>, steps: seq<Step>, id: JobId, k: nat, l: nat)
    requires IsRun(states, steps) && Inv(states[0]) && k <= l < |states|
    requires id in states[k].jobs && states[k].jobs[id].closes > 0
    ensures states[k].jobs[id].status.Terminal()
    ensures id in states[l].jobs && states[l].jobs[id] == states[k].jobs[id]
  {
    RunInv(states, steps, k);
    assert JobOk(states[k], id);
    Life(states, steps, id, k, l);
  }

  // ------------------------------------------------------------ first in, first out

  /** Jobs of one instance start in the order they were appended. */
  lemma StartsInOrder(s: State, k: nat, l: nat)
    requires Inv(s) && k < l < |s.starts|
    requires s.starts[k] in s.jobs && s.starts[l] in s.jobs
    requires s.jobs[s.starts[k]].instance == s.jobs[s.starts[l]].instance
    ensures exists p, q :: 0 <= p < q < |s.appended| && s.appended[p] == s.starts[k] && s.appended[q] == s.starts[l]
  {
    var a, b := s.starts[k], s.starts[l];
    assert JobOk(s, a) && JobOk(s, b);
    var p, q := s.ticket[a], s.ticket[b];
    assert s.appended[p] == a && s.appended[q] == b;
  }

  /** When a job has started, every job appended before it on its instance started or was cancelled in the queue. */
  lemma NobodyOvertaken(s: State, p: nat, q: nat)
    requires Inv(s) && p < q < |s.appended|
    requires s.appended[p] in s.jobs && s.appended[q] in s.jobs
    requires s.jobs[s.appended[p]].instance == s.jobs[s.appended[q]].instance
    requires s.appended[q] in s.starts
    ensures s.appended[p] in s.starts || (NeverRan(s, s.appended[p]) && s.jobs[s.appended[p]].cancelRequested)
  {
    var a, b := s.appended[p], s.appended[q];
    assert JobOk(s, a) && StartOk(s, a) && StartOk(s, b);
    if a !in s.starts && s.jobs[a].phase.PhaseQueued? {
      StillWaiting(s, a);
      assert false;
    }
  }

  /** A queued job that was appended is either in hand or behind everything served. */
  lemma StillWaiting(s: State, a: JobId)
    requires Inv(s) && a in s.jobs && s.jobs[a].phase.PhaseQueued? && a in s.ticket
    ensures Served(s, s.jobs[a].instance) <= s.ticket[a] + 1
  {
    assert JobOk(s, a);
    match s.keeper[a]
    case ByQueue => assert QueueOk(s, s.jobs[a].instance);
    case ByThread(t) => assert ThreadOk(s, t);
  }
}
