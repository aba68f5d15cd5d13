/** What a request to cancel and a verdict mean for a job's end, in every run: internal/jobs/runner.go:379-443. */
module JobVerdicts {
  import opened JobForward
  import opened JobInvariants
  import opened JobProtocol
  import opened JobRuns

  // ------------------------------------------------------------ a verdict stands

  /** The worker t has decided that job id ends with v. */
  ghost predicate Decided(s: State, t: ThreadId, id: JobId, v: Status) {
    t in s.threads && s.threads[t].Worker? && s.threads[t].pc == Finishing(id, v)
  }

  ghost predicate EndsAs(s: State, id: JobId, v: Status) {
    id in s.jobs && s.jobs[id].status == v
  }

  lemma QueueStep(s: State, step: Step, t: ThreadId, id: JobId, v: Status)
    requires Enabled(s, step) && Decided(s, t, id, v)
    requires step.Register? || step.Append? || step.Pop? || step.Retire? || step.Unlink?
    ensures Decided(Apply(s, step), t, id, v)
  {
    match step
    case Register(u, x, i) => assert DoRegister(s, u, x, i).threads == s.threads[u := Enqueuer(x)];
    case Append(u, w) => assert u != t && w != t;
    case Pop(u) => assert u != t;
    case Retire(u) => assert u != t;
    case Unlink(u) => assert u != t;
  }

  lemma EarlyStep(s: State, step: Step, t: ThreadId, id: JobId, v: Status)
    requires Enabled(s, step) && Decided(s, t, id, v)
    requires step.CheckPhase? || step.Acquire? || step.GoRunning? || step.OpenLog? || step.MarkRunning?
    ensures Decided(Apply(s, step), t, id, v)
  {
    match step
    case CheckPhase(u) => assert u != t;
    case Acquire(u) => assert u != t;
    case GoRunning(u) => assert u != t;
    case OpenLog(u, ok) => assert u != t;
    case MarkRunning(u) => assert u != t;
  }

  lemma LateStep(s: State, step: Step, t: ThreadId, id: JobId, v: Status)
    requires Enabled(s, step) && Decided(s, t, id, v)
    requires step.Invoke? || step.Return? || step.Decide? || step.Close? || step.Release?
    ensures Decided(Apply(s, step), t, id, v)
  {
    match step
    case Invoke(u) => assert u != t;
    case Return(u, o) => assert u != t;
    case Decide(u) => assert u != t;
    case Close(u) => assert u != t;
    case Release(u) => assert u != t;
  }

  lemma CancelStep(s: State, step: Step, t: ThreadId, id: JobId, v: Status)
    requires Enabled(s, step) && Decided(s, t, id, v) && (step.CancelRunning? || step.CancelQueued?)
    ensures Decided(Apply(s, step), t, id, v)
  {
    match step
    case CancelRunning(x) => assert DoCancelRunning(s, x).threads == s.threads;
    case CancelQueued(u, x) => assert DoCancelQueued(s, u, x).threads == s.threads[u := Canceller(x, Unlinking)];
  }

  lemma SettleStep(s: State, u: ThreadId, t: ThreadId, id: JobId, v: Status)
    requires CanSettle(s, u) && Decided(s, t, id, v)
    ensures Decided(DoSettle(s, u), t, id, v) || EndsAs(DoSettle(s, u), id, v)
  {
  }

  /** The one to act for a worker that has decided is that worker, by settling. */
  lemma DecidedStays(s: State, step: Step, t: ThreadId, id: JobId, v: Status)
    requires Enabled(s, step) && Decided(s, t, id, v)
    ensures Decided(Apply(s, step), t, id, v) || EndsAs(Apply(s, step), id, v)
  {
    if step.Settle? {
      SettleStep(s, step.t, t, id, v);
    } else if step.CancelRunning? || step.CancelQueued? {
      CancelStep(s, step, t, id, v);
    } else if step.Register? || step.Append? || step.Pop? || step.Retire? || step.Unlink? {
      QueueStep(s, step, t, id, v);
    } else if step.CheckPhase? || step.Acquire? || step.GoRunning? || step.OpenLog? || step.MarkRunning? {
      EarlyStep(s, step, t, id, v);
    } else {
      LateStep(s, step, t, id, v);
    }
  }

  lemma EndStays(states: seq<State>, steps: seq<Step>, id: JobId, v: Status, k: nat)
    requires IsRun(states, steps) && Inv(states[0]) && k < |steps| && EndsAs(states[k], id, v) && v.Terminal()
    ensures EndsAs(states[k + 1], id, v)
  {
    StepLife(states, steps, id, k);
  }

  lemma {:induction false} DecidedHolds(states: seq<State>, steps: seq<Step>, t: ThreadId, id: JobId, v: Status, m: nat, l: nat)
    requires IsRun(states, steps) && Inv(states[0]) && m <= l < |states|
    requires Decided(states[m], t, id, v) && v.Terminal()
    ensures Decided(states[l], t, id, v) || EndsAs(states[l], id, v)
  {
    if m < l {
      DecidedHolds(states, steps, t, id, v, m, l - 1);
      if Decided(states[l - 1], t, id, v) {
        assert Enabled(states[l - 1], steps[l - 1]) && states[l] == Apply(states[l - 1], steps[l - 1]);
        DecidedStays(states[l - 1], steps[l - 1], t, id, v);
      } else {
        EndStays(states, steps, id, v, l - 1);
      }
    }
  }

  lemma DecidedIsOpen(s: State, t: ThreadId, id: JobId, v: Status)
    requires Inv(s) && Decided(s, t, id, v)
    ensures id in s.jobs && !s.jobs[id].status.Terminal()
  {
    assert ThreadOk(s, t) && JobOk(s, id);
  }

  /** A job ends as its worker decided: cancelled if that was asked for or the Func gave up, else as the Func came back. */
  lemma VerdictStands(states: seq<State>, steps: seq<Step>, t: ThreadId, id: JobId, outcome: Outcome, m: nat, l: nat)
    requires IsRun(states, steps) && Inv(states[0]) && m < l < |states| && steps[m] == Decide(t)
    requires states[m].threads[t].pc == Returned(id, outcome)
    requires id in states[l].jobs && states[l].jobs[id].status.Terminal()
    ensures id in states[m].jobs
    ensures var asked, status := states[m].jobs[id].cancelRequested, states[l].jobs[id].status;
      && (status.Cancelled? <==> asked || outcome.Aborted?)
      && (status.Failed? <==> outcome.Errored? && !asked)
      && (status.Succeeded? <==> outcome.Completed? && !asked)
  {
    var s := states[m];
    assert Enabled(s, steps[m]) && states[m + 1] == Apply(s, steps[m]);
    var v := Verdict(outcome, s.jobs[id].cancelRequested);
    DecidedHolds(states, steps, t, id, v, m + 1, l);
    RunInv(states, steps, l);
    if Decided(states[l], t, id, v) {
      DecidedIsOpen(states[l], t, id, v);
      assert false;
    }
  }

  // ------------------------------------------------------------ cancelling

  /** A Cancel that finds the job running, before the worker decides, ends it as cancelled. */
  lemma CancelRunningEnds(states: seq<State>, steps: seq<Step>, t: ThreadId, id: JobId, k: nat, m: nat, l: nat)
    requires IsRun(states, steps) && Inv(states[0]) && k < m < l < |states|
    requires steps[k] == CancelRunning(id) && steps[m] == Decide(t) && states[m].threads[t].pc.id == id
    requires id in states[l].jobs && states[l].jobs[id].status.Terminal()
    ensures states[l].jobs[id].status == Cancelled
  {
    assert Enabled(states[k], steps[k]) && states[k + 1] == Apply(states[k], steps[k]);
    assert Enabled(states[m], steps[m]);
    Life(states, steps, id, k + 1, m);
    VerdictStands(states, steps, t, id, states[m].threads[t].pc.outcome, m, l);
  }

  /** A Cancel that finds the job queued ends it as cancelled, and its Func is never called. */
  lemma CancelQueuedEnds(states: seq<State>, steps: seq<Step>, t: ThreadId, id: JobId, k: nat, l: nat)
    requires IsRun(states, steps) && Inv(states[0]) && k < l < |states| && steps[k] == CancelQueued(t, id)
    ensures id in states[l].jobs && states[l].jobs[id].invocations == 0 && states[l].jobs[id].cancelRequested
    ensures states[l].jobs[id].status == Queued || states[l].jobs[id].status == Cancelled
  {
    var s := states[k];
    assert Enabled(s, steps[k]) && states[k + 1] == Apply(s, steps[k]);
    RunInv(states, steps, k);
    assert StartOk(s, id);
    Life(states, steps, id, k + 1, l);
    RunInv(states, steps, l);
    assert StartOk(states[l], id);
  }
}
