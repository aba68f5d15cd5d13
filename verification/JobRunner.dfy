/**
 The Runner of internal/jobs/runner.go as an object: each method is what one goroutine does
 under one lock, and its contract names the step of the protocol it carries out. `shadow` is
 the protocol state; `Valid` ties the real fields to it.
 */
module JobRunner {
  import opened JobProtocol
  import opened JobInvariants
  import opened JobRuns

  datatype Taken = Idle | Job(id: JobId)

  /** A queue that was never asked for is empty and idle. */
  function QueueIn(queues: map<InstanceId, JobQueue>, instance: InstanceId): JobQueue {
    if instance in queues then queues[instance] else JobQueue([], false)
  }

  /** The runner's queues are those of the protocol, but for queues that were asked for and are empty and idle. */
  ghost predicate SameQueues(mine: map<InstanceId, JobQueue>, queues: map<InstanceId, JobQueue>) {
    forall i {:trigger QueueIn(mine, i)} {:trigger QueueIn(queues, i)} :: QueueIn(mine, i) == QueueIn(queues, i)
  }

  lemma SameQueuesPut(mine: map<InstanceId, JobQueue>, queues: map<InstanceId, JobQueue>, instance: InstanceId, q: JobQueue)
    requires SameQueues(mine, queues)
    ensures SameQueues(mine[instance := q], queues[instance := q])
  {
    var a, b := mine[instance := q], queues[instance := q];
    forall i ensures QueueIn(a, i) == QueueIn(b, i) {
      assert QueueIn(mine, i) == QueueIn(queues, i);
    }
  }

  lemma SameQueuesGot(mine: map<InstanceId, JobQueue>, queues: map<InstanceId, JobQueue>, instance: InstanceId)
    requires SameQueues(mine, queues)
    ensures SameQueues(mine[instance := QueueIn(mine, instance)], queues)
  {
    var a := mine[instance := QueueIn(mine, instance)];
    forall i ensures QueueIn(a, i) == QueueIn(queues, i) {
      assert QueueIn(mine, i) == QueueIn(queues, i);
    }
  }

  /** after is before without the first occurrence of id, if it has one. */
  ghost predicate LacksFirst(before: seq<JobId>, after: seq<JobId>, id: JobId) {
    || (id !in before && after == before)
    || exists k :: 0 <= k < |before| && before[k] == id && id !in before[..k] && after == before[..k] + before[k + 1..]
  }

  class Runner {
    const maxConcurrent: nat
    var sem: nat                            // slots in use
    var queues: map<InstanceId, JobQueue>
    var jobs: map<JobId, JobRecord>
    ghost var shadow: State

    ghost predicate Valid()
      reads this
    {
      && Inv(shadow)
      && shadow.maxConcurrent == maxConcurrent && shadow.sem == sem
      && SameQueues(queues, shadow.queues) && shadow.jobs == jobs
    }

    constructor (maxConcurrent: nat)
      ensures Valid() && shadow == Init(maxConcurrent)
    {
      this.maxConcurrent := maxConcurrent;
      sem, queues, jobs := 0, map[], map[];
      shadow := Init(maxConcurrent);
      InitInv(maxConcurrent);
    }

    // runner.go:204-213
    method GetQueue(instance: InstanceId) returns (q: JobQueue)
      requires Valid()
      modifies this`queues
      ensures Valid() && q == QueueOf(shadow, instance) && queues == old(queues)[instance := q]
    {
      if instance in queues {
        q := queues[instance];
        assert queues == queues[instance := q];
      } else {
        q := JobQueue([], false);
        queues := queues[instance := q];
      }
      SameQueuesGot(old(queues), shadow.queues, instance);
      assert q == QueueIn(old(queues), instance) == QueueIn(shadow.queues, instance);
    }

    // The registration half of Enqueue, runner.go:268-277.
    method Register(ghost t: ThreadId, id: JobId, instance: InstanceId)
      requires Valid() && CanRegister(shadow, t, id, instance)
      modifies this
      ensures Valid() && shadow == DoRegister(old(shadow), t, id, instance)
      ensures jobs == old(jobs)[id := JobRecord(instance, PhaseQueued, Queued, false, 0, 0)]
      ensures queues == old(queues) && sem == old(sem)
    {
      jobs := jobs[id := JobRecord(instance, PhaseQueued, Queued, false, 0, 0)];
      RegisterInv(shadow, t, id, instance);
      shadow := DoRegister(shadow, t, id, instance);
    }

    // runner.go:289-302; needStart is the branch that launches a worker goroutine.
    method ScheduleToQueue(ghost t: ThreadId, ghost w: ThreadId, instance: InstanceId, id: JobId) returns (needStart: bool)
      requires Valid() && CanAppend(shadow, t, w) && shadow.threads[t].job == id && jobs[id].instance == instance
      modifies this
      ensures Valid() && shadow == DoAppend(old(shadow), t, w)
      ensures needStart <==> w in shadow.threads
      ensures QueueIn(queues, instance) == JobQueue(QueueIn(old(queues), instance).pending + [id], true)
      ensures forall i | i != instance :: QueueIn(queues, i) == QueueIn(old(queues), i)
      ensures needStart <==> !QueueIn(old(queues), instance).active
      ensures jobs == old(jobs) && sem == old(sem)
    {
      var q := GetQueue(instance);
      q := q.(pending := q.pending + [id]);
      needStart := !q.active;
      if needStart {
        q := q.(active := true);
      }
      SameQueuesPut(queues, shadow.queues, instance, q);
      queues := queues[instance := q];
      AppendInv(shadow, t, w);
      shadow := DoAppend(shadow, t, w);
    }

    // The loop head of serveQueue, runner.go:307-315.
    method TakeNext(ghost t: ThreadId, instance: InstanceId) returns (next: Taken)
      requires Valid() && IsWorker(shadow, t) && shadow.threads[t] == Worker(instance, Fetch)
      modifies this
      ensures Valid()
      ensures next.Idle? <==> QueueOf(old(shadow), instance).pending == []
      ensures next.Idle? ==> shadow == DoRetire(old(shadow), t)
      ensures next.Job? ==> shadow == DoPop(old(shadow), t) && next.id == QueueOf(old(shadow), instance).pending[0]
      ensures var q := QueueIn(old(queues), instance);
        && (next.Idle? <==> q.pending == [])
        && QueueIn(queues, instance) == if q.pending == [] then JobQueue([], false) else JobQueue(q.pending[1..], q.active)
      ensures forall i | i != instance :: QueueIn(queues, i) == QueueIn(old(queues), i)
      ensures jobs == old(jobs) && sem == old(sem)
    {
      var q := GetQueue(instance);
      if |q.pending| == 0 {
        GoIdle(t, instance, q);
        next := Idle;
      } else {
        PopHead(t, instance, q);
        next := Job(q.pending[0]);
      }
    }

    // runner.go:309-311
    method GoIdle(ghost t: ThreadId, instance: InstanceId, q: JobQueue)
      requires Valid() && CanRetire(shadow, t) && shadow.threads[t].instance == instance && q == QueueOf(shadow, instance)
      modifies this
      ensures Valid() && shadow == DoRetire(old(shadow), t)
      ensures queues == old(queues)[instance := q.(active := false)] && jobs == old(jobs) && sem == old(sem)
    {
      SameQueuesPut(queues, shadow.queues, instance, q.(active := false));
      queues := queues[instance := q.(active := false)];
      RetireInv(shadow, t);
      shadow := DoRetire(shadow, t);
    }

    // runner.go:313-314
    method PopHead(ghost t: ThreadId, instance: InstanceId, q: JobQueue)
      requires Valid() && CanPop(shadow, t) && shadow.threads[t].instance == instance && q == QueueOf(shadow, instance)
      modifies this
      ensures Valid() && shadow == DoPop(old(shadow), t)
      ensures queues == old(queues)[instance := q.(pending := q.pending[1..])] && jobs == old(jobs) && sem == old(sem)
    {
      SameQueuesPut(queues, shadow.queues, instance, q.(pending := q.pending[1..]));
      queues := queues[instance := q.(pending := q.pending[1..])];
      PopInv(shadow, t);
      shadow := DoPop(shadow, t);
    }

    // The first look at the record in runJob, runner.go:324-337.
    method StillWanted(ghost t: ThreadId, id: JobId) returns (wanted: bool)
      requires Valid() && CanCheckPhase(shadow, t) && shadow.threads[t].pc.id == id
      modifies this
      ensures Valid() && shadow == DoCheckPhase(old(shadow), t)
      ensures wanted <==> shadow.threads[t].pc == Waiting(id)
      ensures wanted <==> id in jobs && !jobs[id].phase.PhaseDone?
      ensures jobs == old(jobs) && queues == old(queues) && sem == old(sem)
    {
      if id !in jobs {
        wanted := false;
      } else if jobs[id].phase.PhaseDone? {
        wanted := false;
      } else {
        wanted := true;
      }
      CheckPhaseInv(shadow, t);
      shadow := DoCheckPhase(shadow, t);
    }

    // Taking a slot, runner.go:339-345; both arms of the select send on the semaphore.
    method Acquire(ghost t: ThreadId)
      requires Valid() && CanAcquire(shadow, t)
      modifies this
      ensures Valid() && shadow == DoAcquire(old(shadow), t)
      ensures sem == old(sem) + 1 <= maxConcurrent && jobs == old(jobs) && queues == old(queues)
    {
      sem := sem + 1;
      AcquireInv(shadow, t);
      shadow := DoAcquire(shadow, t);
    }

    // The second look at the record, runner.go:348-360.
    method BeginRun(ghost t: ThreadId, id: JobId) returns (go: bool, cancelAlready: bool)
      requires Valid() && CanGoRunning(shadow, t) && shadow.threads[t].pc.id == id
      modifies this
      ensures Valid() && shadow == DoGoRunning(old(shadow), t)
      ensures go <==> shadow.threads[t].pc == Opening(id)
      ensures !cancelAlready  // Cancel finishes a queued job itself, so no flag can be pending here
      ensures go <==> !old(jobs)[id].phase.PhaseDone?
      ensures jobs == if go then old(jobs)[id := old(jobs)[id].(phase := PhaseRunning)] else old(jobs)
      ensures queues == old(queues) && sem == old(sem)
    {
      assert ThreadOk(shadow, t) && JobOk(shadow, id);
      InHandNotRunning(shadow, t);
      if jobs[id].phase.PhaseDone? {
        go, cancelAlready := false, false;
      } else {
        cancelAlready := jobs[id].cancelRequested;
        jobs := jobs[id := jobs[id].(phase := PhaseRunning)];
        go := true;
      }
      GoRunningInv(shadow, t);
      shadow := DoGoRunning(shadow, t);
    }

    // runner.go:463-472, the in-memory half.
    method MarkRunning(ghost t: ThreadId, id: JobId)
      requires Valid() && CanMarkRunning(shadow, t) && shadow.threads[t].pc.id == id
      modifies this
      ensures Valid() && shadow == DoMarkRunning(old(shadow), t)
      ensures jobs == old(jobs)[id := old(jobs)[id].(status := Running)] && queues == old(queues) && sem == old(sem)
    {
      jobs := jobs[id := jobs[id].(status := Running)];
      MarkRunningInv(shadow, t);
      shadow := DoMarkRunning(shadow, t);
    }

    // The verdict of runJob, runner.go:379-395.
    method Decide(ghost t: ThreadId, id: JobId, outcome: Outcome) returns (status: Status)
      requires Valid() && CanDecide(shadow, t) && shadow.threads[t].pc == Returned(id, outcome)
      modifies this
      ensures Valid() && shadow == DoDecide(old(shadow), t)
      ensures shadow.threads[t].pc == Finishing(id, status)
      ensures status.Cancelled? <==> jobs[id].cancelRequested || outcome.Aborted?
      ensures status.Failed? <==> outcome.Errored? && !jobs[id].cancelRequested
      ensures status.Succeeded? <==> outcome.Completed? && !jobs[id].cancelRequested
      ensures jobs == old(jobs) && queues == old(queues) && sem == old(sem)
    {
      status := Judge(jobs[id].cancelRequested, outcome);
      DecideInv(shadow, t);
      shadow := DoDecide(shadow, t);
    }

    // runner.go:382-395
    method Judge(cancelled: bool, outcome: Outcome) returns (status: Status)
      ensures status == Verdict(outcome, cancelled)
      ensures status.Cancelled? <==> cancelled || outcome.Aborted?
      ensures status.Failed? <==> outcome.Errored? && !cancelled
      ensures status.Succeeded? <==> outcome.Completed? && !cancelled
    {
      status := Succeeded;
      if cancelled || outcome.Aborted? {
        status := Cancelled;
      } else if outcome.Errored? {
        status := Failed;
      }
    }

    // finish under the record lock, runner.go:480-487.
    method Settle(ghost t: ThreadId, id: JobId, status: Status)
      requires Valid() && CanSettle(shadow, t) && HasJob(shadow.threads[t]) && JobOf(shadow.threads[t]) == id
      requires status == if shadow.threads[t].Worker? then shadow.threads[t].pc.verdict else Cancelled
      modifies this
      ensures Valid() && shadow == DoSettle(old(shadow), t)
      ensures jobs == old(jobs)[id := old(jobs)[id].(status := status, phase := PhaseDone)]
      ensures queues == old(queues) && sem == old(sem)
    {
      jobs := jobs[id := jobs[id].(status := status, phase := PhaseDone)];
      SettleInv(shadow, t);
      shadow := DoSettle(shadow, t);
    }

    // close(rec.done), runner.go:488. A second close would panic; the contract shows this is the first.
    method CloseDone(ghost t: ThreadId, id: JobId)
      requires Valid() && CanClose(shadow, t) && HasJob(shadow.threads[t]) && JobOf(shadow.threads[t]) == id
      modifies this
      ensures Valid() && shadow == DoClose(old(shadow), t)
      ensures old(jobs[id].closes) == 0
      ensures jobs == old(jobs)[id := old(jobs)[id].(closes := 1)] && queues == old(queues) && sem == old(sem)
    {
      assert ThreadOk(shadow, t) && JobOk(shadow, id);
      jobs := jobs[id := jobs[id].(closes := jobs[id].closes + 1)];
      CloseInv(shadow, t);
      shadow := DoClose(shadow, t);
    }

    method Release(ghost t: ThreadId)
      requires Valid() && CanRelease(shadow, t)
      modifies this
      ensures Valid() && shadow == DoRelease(old(shadow), t)
      ensures sem == old(sem) - 1 && jobs == old(jobs) && queues == old(queues)
    {
      sem := sem - 1;
      ReleaseInv(shadow, t);
      shadow := DoRelease(shadow, t);
    }

    // The locked switch of Cancel, runner.go:426-443. True means the caller must unlink and finish the job.
    method Cancel(ghost t: ThreadId, id: JobId) returns (mine: bool)
      requires Valid() && id in jobs && t !in shadow.threads
      modifies this
      ensures Valid()
      ensures mine <==> old(jobs[id].phase) == PhaseQueued
      ensures match old(jobs[id].phase)
              case PhaseDone => shadow == old(shadow)
              case PhaseRunning => shadow == DoCancelRunning(old(shadow), id)
              case PhaseQueued => shadow == DoCancelQueued(old(shadow), t, id)
      ensures jobs == match old(jobs[id].phase)
                      case PhaseDone => old(jobs)
                      case PhaseRunning => old(jobs)[id := old(jobs)[id].(cancelRequested := true)]
                      case PhaseQueued => old(jobs)[id := old(jobs)[id].(cancelRequested := true, phase := PhaseDone)]
      ensures queues == old(queues) && sem == old(sem)
    {
      match jobs[id].phase
      case PhaseDone =>
        mine := false;
      case PhaseRunning =>
        AskToStop(id);
        mine := false;
      case PhaseQueued =>
        TakeFromQueue(t, id);
        mine := true;
    }

    // runner.go:432-438
    method AskToStop(id: JobId)
      requires Valid() && CanCancelRunning(shadow, id)
      modifies this
      ensures Valid() && shadow == DoCancelRunning(old(shadow), id)
      ensures jobs == old(jobs)[id := old(jobs)[id].(cancelRequested := true)] && queues == old(queues) && sem == old(sem)
    {
      jobs := jobs[id := jobs[id].(cancelRequested := true)];
      CancelRunningInv(shadow, id);
      shadow := DoCancelRunning(shadow, id);
    }

    // runner.go:439-443
    method TakeFromQueue(ghost t: ThreadId, id: JobId)
      requires Valid() && CanCancelQueued(shadow, t, id)
      modifies this
      ensures Valid() && shadow == DoCancelQueued(old(shadow), t, id)
      ensures jobs == old(jobs)[id := old(jobs)[id].(cancelRequested := true, phase := PhaseDone)]
      ensures queues == old(queues) && sem == old(sem)
    {
      jobs := jobs[id := jobs[id].(cancelRequested := true, phase := PhaseDone)];
      CancelQueuedInv(shadow, t, id);
      shadow := DoCancelQueued(shadow, t, id);
    }

    // runner.go:450-460.
    method RemoveFromQueue(ghost t: ThreadId, instance: InstanceId, id: JobId)
      requires Valid() && CanUnlink(shadow, t) && shadow.threads[t].job == id && jobs[id].instance == instance
      modifies this
      ensures Valid() && shadow == DoUnlink(old(shadow), t)
      ensures var before, after := QueueIn(old(queues), instance), QueueIn(queues, instance);
        && after.active == before.active
        && LacksFirst(before.pending, after.pending, id)
      ensures forall i | i != instance :: QueueIn(queues, i) == QueueIn(old(queues), i)
      ensures jobs == old(jobs) && sem == old(sem)
    {
      var q := GetQueue(instance);
      var rest := CutFirst(q.pending, id);
      SameQueuesPut(queues, shadow.queues, instance, q.(pending := rest));
      queues := queues[instance := q.(pending := rest)];
      UnlinkInv(shadow, t);
      shadow := DoUnlink(shadow, t);
    }

    // runner.go:454-459, the search for the id
    method CutFirst(pending: seq<JobId>, id: JobId) returns (rest: seq<JobId>)
      ensures rest == RemoveFirst(pending, id)
      ensures LacksFirst(pending, rest, id)
    {
      var i := 0;
      while i < |pending| && pending[i] != id
        invariant 0 <= i <= |pending|
        invariant id !in pending[..i]
      {
        i := i + 1;
      }
      rest := pending;
      if i < |pending| {
        rest := pending[..i] + pending[i + 1..];
      }
      RemoveFirstAt(pending, id, i);
    }
  }

  lemma {:induction false} RemoveFirstAt(pending: seq<JobId>, id: JobId, i: nat)
    requires i <= |pending| && id !in pending[..i] && (i < |pending| ==> pending[i] == id)
    ensures RemoveFirst(pending, id) == if i < |pending| then pending[..i] + pending[i + 1..] else pending
  {
    if i > 0 {
      assert pending[0] == pending[..i][0];
      assert pending[1..][..i - 1] == pending[..i][1..];
      RemoveFirstAt(pending[1..], id, i - 1);
    }
  }
}
