/**
 Every goroutine that is not waiting for a slot can take its next step.

 `NextStep` reads the step off the program counter. The invariant gives what the step asks for: the job a thread works
 on is registered and in the phase its counter needs, and the queue a worker serves is active. Only a worker at the
 semaphore may have to wait, and then for a thread that holds a slot and can itself go on.
 */
module JobProgress {
  import opened JobInvariants
  import opened JobProtocol

  /** The steps the runner takes by itself; Func returning counts, new jobs and Cancel calls do not. */
  predicate OwnStep(step: Step) {
    !step.Register? && !step.CancelRunning? && !step.CancelQueued?
  }

  lemma FreshThread(ids: set<ThreadId>) returns (w: ThreadId)
    ensures w !in ids
    ensures forall u | u in ids :: u < w
  {
    w := 0;
    if ids != {} {
      var u :| u in ids;
      var v := FreshThread(ids - {u});
      w := if u < v then v else u + 1;
      assert ids == (ids - {u}) + {u};
    }
  }

  /** The next step of a thread that is not waiting for a slot. */
  function NextStep(s: State, t: ThreadId, w: ThreadId): Step
    requires t in s.threads
  {
    match s.threads[t]
    case Enqueuer(_) => Append(t, w)
    case Canceller(_, stage) => if stage.Unlinking? then Unlink(t) else if stage.Settling? then Settle(t) else Close(t)
    case Worker(i, pc) =>
      match pc
      case Fetch => if QueueOf(s, i).pending == [] then Retire(t) else Pop(t)
      case Popped(_) => CheckPhase(t)
      case Waiting(_) => Acquire(t)
      case Admitted(_) => GoRunning(t)
      case Opening(_) => OpenLog(t, true)
      case Starting(_) => MarkRunning(t)
      case Invoking(_) => Invoke(t)
      case Executing(_) => Return(t, Completed)
      case Returned(_, _) => Decide(t)
      case Finishing(_, _) => Settle(t)
      case Closing(_) => Close(t)
      case Releasing => Release(t)
  }

  lemma ThreadCanMove(s: State, t: ThreadId, w: ThreadId)
    requires Inv(s) && t in s.threads && w !in s.threads
    requires IsWorker(s, t) && s.threads[t].pc.Waiting? ==> s.sem < s.maxConcurrent
    ensures OwnStep(NextStep(s, t, w)) && Enabled(s, NextStep(s, t, w))
  {
    assert ThreadOk(s, t);
    if HoldsSlot(s.threads[t]) {
      assert t in SlotHolders(s.threads);
    }
  }
}
