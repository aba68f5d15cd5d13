/** First in, first out, told by the steps of a run: internal/jobs/runner.go:286-396. */
module JobOrder {
  import opened JobForward
  import opened JobInvariants
  import opened JobProtocol
  import opened JobRuns

  /** The step puts job x into its queue. */
  predicate Appends(s: State, step: Step, x: JobId) {
    step.Append? && CanAppend(s, step.t, step.w) && s.threads[step.t].job == x
  }

  /** The step sets job x running. */
  predicate Starts(s: State, step: Step, x: JobId) {
    && step.GoRunning? && CanGoRunning(s, step.t)
    && s.threads[step.t].pc.id == x && !s.jobs[x].phase.PhaseDone?
  }

  lemma AppendLog(s: State, step: Step)
    requires Enabled(s, step)
    ensures s.appended <= Apply(s, step).appended
    ensures forall x | Appends(s, step, x) :: Apply(s, step).appended == s.appended + [x]
  {
    match step
    case Register(t, id, i) => assert DoRegister(s, t, id, i).appended == s.appended;
    case Append(t, w) => assert DoAppend(s, t, w).appended == s.appended + [s.threads[t].job];
    case _ => if LeavesJobs(step) { OtherLog(s, step); } else { RecordLog(s, step); }
  }

  lemma OtherLog(s: State, step: Step)
    requires Enabled(s, step) && LeavesJobs(step) && !step.Append?
    ensures Apply(s, step).appended == s.appended
  {
    match step
    case Pop(t) => assert DoPop(s, t).appended == s.appended;
    case Retire(t) => assert DoRetire(s, t).appended == s.appended;
    case CheckPhase(t) => assert DoCheckPhase(s, t).appended == s.appended;
    case Acquire(t) => assert DoAcquire(s, t).appended == s.appended;
    case OpenLog(t, ok) => assert DoOpenLog(s, t, ok).appended == s.appended;
    case Return(t, o) => assert DoReturn(s, t, o).appended == s.appended;
    case Decide(t) => assert DoDecide(s, t).appended == s.appended;
    case Release(t) => assert DoRelease(s, t).appended == s.appended;
    case Unlink(t) => assert DoUnlink(s, t).appended == s.appended;
  }

  lemma RecordLog(s: State, step: Step)
    requires Enabled(s, step) && !LeavesJobs(step) && !step.Register?
    ensures Apply(s, step).appended == s.appended
  {
    match step
    case GoRunning(t) => assert DoGoRunning(s, t).appended == s.appended;
    case MarkRunning(t) => assert DoMarkRunning(s, t).appended == s.appended;
    case Invoke(t) => assert DoInvoke(s, t).appended == s.appended;
    case Settle(t) => assert DoSettle(s, t).appended == s.appended;
    case Close(t) => assert DoClose(s, t).appended == s.appended;
    case CancelRunning(id) => assert DoCancelRunning(s, id).appended == s.appended;
    case CancelQueued(t, id) => assert DoCancelQueued(s, t, id).appended == s.appended;
  }

  lemma StartLog(s: State, step: Step)
    requires Enabled(s, step)
    ensures (exists x :: Starts(s, step, x) && Apply(s, step).starts == s.starts + [x])
         || (Apply(s, step).starts == s.starts && forall x :: !Starts(s, step, x))
  {
    if LeavesJobs(step) {
      JobsLeft(s, step);
    } else {
      match step
      case Register(t, id, i) => assert DoRegister(s, t, id, i).starts == s.starts;
      case GoRunning(t) => StartOrNot(s, t);
      case MarkRunning(t) => assert DoMarkRunning(s, t).starts == s.starts;
      case Invoke(t) => assert DoInvoke(s, t).starts == s.starts;
      case Settle(t) => assert DoSettle(s, t).starts == s.starts;
      case Close(t) => assert DoClose(s, t).starts == s.starts;
      case CancelRunning(id) => assert DoCancelRunning(s, id).starts == s.starts;
      case CancelQueued(t, id) => assert DoCancelQueued(s, t, id).starts == s.starts;
    }
  }

  lemma StartOrNot(s: State, t: ThreadId)
    requires CanGoRunning(s, t)
    ensures var x := s.threads[t].pc.id;
      if s.jobs[x].phase.PhaseDone? then DoGoRunning(s, t).starts == s.starts
      else Starts(s, GoRunning(t), x) && DoGoRunning(s, t).starts == s.starts + [x]
  {
  }

  lemma {:induction false} AppendedGrows(states: seq<State>, steps: seq<Step>, k: nat, l: nat)
    requires IsRun(states, steps) && k <= l < |states|
    ensures states[k].appended <= states[l].appended
  {
    if k < l {
      AppendedGrows(states, steps, k, l - 1);
      assert Enabled(states[l - 1], steps[l - 1]) && states[l] == Apply(states[l - 1], steps[l - 1]);
      AppendLog(states[l - 1], steps[l - 1]);
    }
  }

  lemma {:induction false} StartsGrow(states: seq<State>, steps: seq<Step>, k: nat, l: nat)
    requires IsRun(states, steps) && k <= l < |states|
    ensures states[k].starts <= states[l].starts
  {
    if k < l {
      StartsGrow(states, steps, k, l - 1);
      assert Enabled(states[l - 1], steps[l - 1]) && states[l] == Apply(states[l - 1], steps[l - 1]);
      StartLog(states[l - 1], steps[l - 1]);
    }
  }

  /** Whatever is on record as started was started by a step. */
  lemma {:induction false} StartedByStep(states: seq<State>, steps: seq<Step>, x: JobId, l: nat) returns (c: nat)
    requires IsRun(states, steps) && l < |states| && states[0].starts == [] && x in states[l].starts
    ensures c < l && Starts(states[c], steps[c], x)
  {
    assert Enabled(states[l - 1], steps[l - 1]) && states[l] == Apply(states[l - 1], steps[l - 1]);
    StartLog(states[l - 1], steps[l - 1]);
    if x in states[l - 1].starts {
      c := StartedByStep(states, steps, x, l - 1);
    } else {
      c := l - 1;
    }
  }

  /** Of the jobs appended, the one at a place of the log is the one its step put there. */
  lemma PlaceOf(states: seq<State>, steps: seq<Step>, a: nat, x: JobId, l: nat)
    requires IsRun(states, steps) && a < l < |states| && Appends(states[a], steps[a], x)
    ensures |states[a].appended| < |states[l].appended| && states[l].appended[|states[a].appended|] == x
  {
    assert Enabled(states[a], steps[a]) && states[a + 1] == Apply(states[a], steps[a]);
    AppendLog(states[a], steps[a]);
    AppendedGrows(states, steps, a + 1, l);
    assert states[a + 1].appended[|states[a].appended|] == x;
  }

  /**
   A job that was put into its queue before another of the same instance is set running before that one, unless it
   was cancelled while it was queued.
   */
  lemma FirstInFirstOut(max: nat, states: seq<State>, steps: seq<Step>, a: nat, b: nat, d: nat, x: JobId, y: JobId)
    requires IsRun(states, steps) && states[0] == Init(max) && a < b < |steps| && d < |steps|
    requires Appends(states[a], steps[a], x) && Appends(states[b], steps[b], y) && Starts(states[d], steps[d], y)
    requires var last := states[|steps|]; x in last.jobs && y in last.jobs && last.jobs[x].instance == last.jobs[y].instance
    ensures (exists c: nat :: c < d && Starts(states[c], steps[c], x))
         || (states[|steps|].jobs[x].cancelRequested && states[|steps|].jobs[x].invocations == 0)
  {
    InitInv(max);
    RunInv(states, steps, |steps|);
    AtTheEnd(states, steps, a, b, d, x, y);
    if x in states[d].starts {
      var c := StartedByStep(states, steps, x, d);
    }
  }

  lemma AtTheEnd(states: seq<State>, steps: seq<Step>, a: nat, b: nat, d: nat, x: JobId, y: JobId)
    requires IsRun(states, steps) && Inv(states[|steps|]) && a < b < |steps| && d < |steps|
    requires Appends(states[a], steps[a], x) && Appends(states[b], steps[b], y) && Starts(states[d], steps[d], y)
    requires var last := states[|steps|]; x in last.jobs && y in last.jobs && last.jobs[x].instance == last.jobs[y].instance
    ensures x in states[d].starts || (states[|steps|].jobs[x].cancelRequested && states[|steps|].jobs[x].invocations == 0)
  {
    var l := |steps|;
    PlaceOf(states, steps, a, x, l);
    PlaceOf(states, steps, b, y, l);
    PlaceOf(states, steps, a, x, b);
    StartPlace(states, steps, d, y, l);
    StartedEarlier(states[l], |states[a].appended|, |states[b].appended|, |states[d].starts|);
  }

  lemma StartPlace(states: seq<State>, steps: seq<Step>, d: nat, y: JobId, l: nat)
    requires IsRun(states, steps) && d < l < |states| && Starts(states[d], steps[d], y)
    ensures var n := |states[d].starts|; n < |states[l].starts| && states[l].starts[n] == y && states[l].starts[..n] == states[d].starts
  {
    assert Enabled(states[d], steps[d]) && states[d + 1] == Apply(states[d], steps[d]);
    StartLog(states[d], steps[d]);
    StartsGrow(states, steps, d + 1, l);
    assert states[d + 1].starts[|states[d].starts|] == y;
  }

  /** Of two jobs of one instance, the later one on record as started: so is the earlier one, or it was cancelled. */
  lemma StartedEarlier(s: State, p: nat, q: nat, n: nat)
    requires Inv(s) && p < q < |s.appended| && n < |s.starts| && s.starts[n] == s.appended[q]
    requires s.appended[p] in s.jobs && s.appended[q] in s.jobs
    requires s.jobs[s.appended[p]].instance == s.jobs[s.appended[q]].instance
    ensures var x := s.appended[p];
      x in s.starts[..n] || (s.jobs[x].cancelRequested && s.jobs[x].invocations == 0)
  {
    var x := s.appended[p];
    NobodyOvertaken(s, p, q);
    assert StartOk(s, x);
    if x in s.starts {
      var k: nat :| k < |s.starts| && s.starts[k] == x;
      EarlierStarts(s, k, n, p, q);
      assert s.starts[..n][k] == x;
    }
  }

  /** Earlier in the log of appended jobs is earlier among the starts of the instance. */
  lemma EarlierStarts(s: State, k: nat, n: nat, p: nat, q: nat)
    requires Inv(s) && k < |s.starts| && n < |s.starts| && p < q < |s.appended|
    requires s.starts[k] == s.appended[p] && s.starts[n] == s.appended[q]
    requires s.starts[k] in s.jobs && s.starts[n] in s.jobs
    requires s.jobs[s.starts[k]].instance == s.jobs[s.starts[n]].instance
    ensures k < n
  {
    assert s.ticket[s.appended[p]] == p && s.ticket[s.appended[q]] == q;
  }
}
