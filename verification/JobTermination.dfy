/** Every run of the job runner comes to an end: internal/jobs/runner.go:289-489. */
module JobTermination {
  import opened JobInvariants
  import opened JobMeasure
  import opened JobProgress
  import opened JobProtocol
  import opened JobRuns

  /** Whatever happens short of a new job either changes nothing or lowers the measure. */
  lemma StepLowers(s: State, step: Step)
    requires Inv(s) && Enabled(s, step) && !step.Register? && Apply(s, step) != s
    ensures Measure(Apply(s, step)) < Measure(s)
  {
    match step
    case Append(t, w) => AppendLowers(s, t, w);
    case Pop(t) => PopLowers(s, t);
    case Retire(t) => RetireLowers(s, t);
    case GoRunning(t) => GoRunningLowers(s, t);
    case MarkRunning(t) => MarkRunningLowers(s, t);
    case Invoke(t) => InvokeLowers(s, t);
    case Settle(t) => SettleLowers(s, t);
    case Close(t) => CloseLowers(s, t);
    case CancelRunning(id) => CancelRunningLowers(s, id);
    case CancelQueued(t, id) =>
      assert JobOk(s, id);
      CancelQueuedLowers(s, t, id);
    case Unlink(t) => UnlinkLowers(s, t);
    case _ => ThreadStepLowers(s, step);
  }

  // ------------------------------------------------------------ progress

  /** No deadlock: as long as any goroutine is left, some own step is enabled. */
  lemma Progress(s: State) returns (step: Step)
    requires Inv(s) && s.maxConcurrent > 0 && s.threads.Keys != {}
    ensures OwnStep(step) && Enabled(s, step)
  {
    var w := FreshThread(s.threads.Keys);
    var t :| t in s.threads;
    if s.sem == s.maxConcurrent {
      assert SlotHolders(s.threads) != {};
      t :| t in SlotHolders(s.threads);
    }
    ThreadCanMove(s, t, w);
    step := NextStep(s, t, w);
  }

  /** Nothing left to do: every job is terminal and announced once, all queues are empty, all slots free. */
  ghost predicate AllDone(s: State) {
    && s.threads.Keys == {} && s.sem == 0
    && (forall i :: QueueOf(s, i).pending == [])
    && (forall id | id in s.jobs :: s.jobs[id].status.Terminal() && s.jobs[id].closes == 1)
  }

  lemma QuietMeansDone(s: State)
    requires Inv(s) && s.maxConcurrent > 0
    requires forall step :: OwnStep(step) ==> !Enabled(s, step)
    ensures AllDone(s)
  {
    if s.threads.Keys != {} {
      var step := Progress(s);
    }
    assert SlotHolders(s.threads) == {};
    forall i ensures QueueOf(s, i).pending == [] {
      assert QueueOk(s, i);
    }
    forall id | id in s.jobs
      ensures s.jobs[id].status.Terminal() && s.jobs[id].closes == 1
    {
      assert JobOk(s, id);
    }
  }

  /** No job is registered and no step is idle (a repeated Cancel of a running job is). */
  ghost predicate Draining(states: seq<State>, steps: seq<Step>)
    requires |states| == |steps| + 1
  {
    forall m {:trigger steps[m]} | 0 <= m < |steps| :: !steps[m].Register? && states[m + 1] != states[m]
  }

  lemma DrainLowers(states: seq<State>, steps: seq<Step>, k: nat)
    requires IsRun(states, steps) && Inv(states[0]) && Draining(states, steps) && k < |steps|
    ensures Measure(states[k + 1]) < Measure(states[k])
  {
    RunInv(states, steps, k);
    StepLowers(states[k], steps[k]);
  }

  lemma {:induction false} RunLowers(states: seq<State>, steps: seq<Step>, k: nat)
    requires IsRun(states, steps) && Inv(states[0]) && k < |states|
    requires Draining(states, steps)
    ensures Measure(states[k]) + k <= Measure(states[0])
  {
    if k > 0 {
      RunLowers(states, steps, k - 1);
      DrainLowers(states, steps, k - 1);
    }
  }

  /** Without new jobs a run is no longer than the measure, and one that cannot go on has finished every job. */
  lemma Termination(states: seq<State>, steps: seq<Step>)
    requires IsRun(states, steps) && Inv(states[0]) && states[0].maxConcurrent > 0
    requires Draining(states, steps)
    ensures |steps| <= Measure(states[0])
    ensures var last := states[|steps|];
            (forall step :: OwnStep(step) ==> !Enabled(last, step)) ==> AllDone(last)
  {
    RunLowers(states, steps, |steps|);
    RunInv(states, steps, |steps|);
    CapFixed(states, steps, |steps|);
    var last := states[|steps|];
    if forall step :: OwnStep(step) ==> !Enabled(last, step) {
      QuietMeansDone(last);
    }
  }
}
