/**
 The measure that every step of the runner lowers, and how much each kind of step takes off it.

 A goroutine weighs the number of steps it may still take: a worker counts down from the job it popped to the slot it
 releases, a cancelling goroutine from unlinking to closing, and an enqueuing one carries what its append will put into
 the queue, including the worker it may have to start. A pending job weighs what the worker that pops it will gain, a
 queued one what a cancelling goroutine would bring, and a job that can still be asked to stop weighs one more, so that
 asking costs something too. The measure is the sum over goroutines, jobs and queues; a step changes at most one of
 each, so the sums before and after differ by what it puts in and takes out, and only the weights have to be compared.
 */
module JobMeasure {
  import opened JobInvariants
  import opened JobProtocol
  import opened MapSum

  function ThreadWeight(th: Thread): nat {
    match th
    case Enqueuer(_) => 20
    case Canceller(_, stage) => if stage.Unlinking? then 3 else if stage.Settling? then 2 else 1
    case Worker(_, pc) =>
      match pc
      case Fetch => 1
      case Popped(_) => 14
      case Waiting(_) => 13
      case Admitted(_) => 12
      case Opening(_) => 11
      case Starting(_) => 10
      case Invoking(_) => 9
      case Executing(_) => 8
      case Returned(_, _) => 7
      case Finishing(_, _) => 6
      case Closing(_) => 5
      case Releasing => 4
  }

  function JobWeight(j: JobRecord): nat {
    (if j.phase.PhaseQueued? then 4 else 0) + (if j.cancelRequested then 0 else 1)
  }

  function QueueWeight(q: JobQueue): nat {
    16 * |q.pending|
  }

  ghost function ThreadSum(threads: map<ThreadId, Thread>): nat {
    Sum(threads, ThreadWeight)
  }

  ghost function JobSum(jobs: map<JobId, JobRecord>): nat {
    Sum(jobs, JobWeight)
  }

  ghost function QueueSum(queues: map<InstanceId, JobQueue>): nat {
    Sum(queues, QueueWeight)
  }

  ghost function Measure(s: State): nat {
    ThreadSum(s.threads) + JobSum(s.jobs) + QueueSum(s.queues)
  }

  lemma ThreadOut(threads: map<ThreadId, Thread>, t: ThreadId)
    requires t in threads
    ensures ThreadSum(threads) == ThreadWeight(threads[t]) + ThreadSum(threads - {t})
  {
    SumOut(threads, ThreadWeight, t);
  }

  lemma ThreadPut(threads: map<ThreadId, Thread>, t: ThreadId, th: Thread)
    ensures ThreadSum(threads[t := th]) == ThreadWeight(th) + ThreadSum(threads - {t})
  {
    SumPut(threads, ThreadWeight, t, th);
  }

  lemma ThreadSwap(threads: map<ThreadId, Thread>, t: ThreadId, th: Thread)
    requires t in threads
    ensures ThreadSum(threads[t := th]) == ThreadSum(threads) - ThreadWeight(threads[t]) + ThreadWeight(th)
  {
    ThreadOut(threads, t);
    ThreadPut(threads, t, th);
  }

  lemma JobSwap(jobs: map<JobId, JobRecord>, id: JobId, j: JobRecord)
    requires id in jobs
    ensures JobSum(jobs[id := j]) == JobSum(jobs) - JobWeight(jobs[id]) + JobWeight(j)
  {
    SumSwap(jobs, JobWeight, id, j);
  }

  /** Giving a queue a new content, whether or not the queue existed before. */
  lemma QueueSwap(s: State, i: InstanceId, q: JobQueue)
    ensures QueueSum(s.queues[i := q])
         == QueueSum(s.queues) - QueueWeight(QueueOf(s, i)) + QueueWeight(q)
  {
    if i in s.queues {
      SumSwap(s.queues, QueueWeight, i, q);
    } else {
      SumPut(s.queues, QueueWeight, i, q);
      assert s.queues - {i} == s.queues;
    }
  }

  /** A thread moves on or leaves, at most one job changes, and the queues stay. */
  lemma MoveLowers(s: State, r: State, t: ThreadId, id: JobId, th: Thread, j: JobRecord)
    requires t in s.threads && r.queues == s.queues
    requires r.threads == s.threads - {t}
             || (r.threads == s.threads[t := th] && ThreadWeight(th) < ThreadWeight(s.threads[t]))
    requires r.jobs == s.jobs || (id in s.jobs && r.jobs == s.jobs[id := j] && JobWeight(j) <= JobWeight(s.jobs[id]))
    requires r.threads == s.threads - {t} ==> ThreadWeight(s.threads[t]) > 0
    ensures Measure(r) < Measure(s)
  {
    ThreadOut(s.threads, t);
    ThreadPut(s.threads, t, th);
    if r.jobs != s.jobs {
      JobSwap(s.jobs, id, j);
    }
  }

  /** A thread moves on and nothing else counts. */
  lemma ThreadMoves(s: State, r: State, t: ThreadId)
    requires t in s.threads && t in r.threads && r.queues == s.queues && r.jobs == s.jobs
    requires r.threads == s.threads[t := r.threads[t]] && ThreadWeight(r.threads[t]) < ThreadWeight(s.threads[t])
    ensures Measure(r) < Measure(s)
  {
    ThreadSwap(s.threads, t, r.threads[t]);
  }

  /** Steps that only move one thread. */
  lemma ThreadStepLowers(s: State, step: Step)
    requires Inv(s) && Enabled(s, step)
    requires step.CheckPhase? || step.Acquire? || step.OpenLog? || step.Return? || step.Decide? || step.Release?
    ensures Measure(Apply(s, step)) < Measure(s)
  {
    match step
    case CheckPhase(t) => ThreadMoves(s, DoCheckPhase(s, t), t);
    case Acquire(t) => ThreadMoves(s, DoAcquire(s, t), t);
    case OpenLog(t, ok) => ThreadMoves(s, DoOpenLog(s, t, ok), t);
    case Return(t, outcome) => ThreadMoves(s, DoReturn(s, t, outcome), t);
    case Decide(t) => ThreadMoves(s, DoDecide(s, t), t);
    case Release(t) => ThreadMoves(s, DoRelease(s, t), t);
  }

  lemma GoRunningLowers(s: State, t: ThreadId)
    requires Inv(s) && CanGoRunning(s, t)
    ensures Measure(DoGoRunning(s, t)) < Measure(s)
  {
    assert ThreadOk(s, t);
    var r, id := DoGoRunning(s, t), JobOf(s.threads[t]);
    MoveLowers(s, r, t, id, r.threads[t], r.jobs[id]);
  }

  lemma MarkRunningLowers(s: State, t: ThreadId)
    requires Inv(s) && CanMarkRunning(s, t)
    ensures Measure(DoMarkRunning(s, t)) < Measure(s)
  {
    assert ThreadOk(s, t);
    var r, id := DoMarkRunning(s, t), JobOf(s.threads[t]);
    MoveLowers(s, r, t, id, r.threads[t], r.jobs[id]);
  }

  lemma InvokeLowers(s: State, t: ThreadId)
    requires Inv(s) && CanInvoke(s, t)
    ensures Measure(DoInvoke(s, t)) < Measure(s)
  {
    assert ThreadOk(s, t);
    var r, id := DoInvoke(s, t), JobOf(s.threads[t]);
    MoveLowers(s, r, t, id, r.threads[t], r.jobs[id]);
  }

  lemma SettleLowers(s: State, t: ThreadId)
    requires Inv(s) && CanSettle(s, t)
    ensures Measure(DoSettle(s, t)) < Measure(s)
  {
    assert ThreadOk(s, t);
    var r, id := DoSettle(s, t), JobOf(s.threads[t]);
    MoveLowers(s, r, t, id, r.threads[t], r.jobs[id]);
  }

  lemma CloseLowers(s: State, t: ThreadId)
    requires Inv(s) && CanClose(s, t)
    ensures Measure(DoClose(s, t)) < Measure(s)
  {
    assert ThreadOk(s, t);
    var r, id := DoClose(s, t), JobOf(s.threads[t]);
    MoveLowers(s, r, t, id, if t in r.threads then r.threads[t] else s.threads[t], r.jobs[id]);
  }

  lemma AppendLowers(s: State, t: ThreadId, w: ThreadId)
    requires Inv(s) && CanAppend(s, t, w)
    ensures Measure(DoAppend(s, t, w)) < Measure(s)
  {
    var i := s.jobs[s.threads[t].job].instance;
    QueueSwap(s, i, JobQueue(QueueOf(s, i).pending + [s.threads[t].job], true));
    ThreadOut(s.threads, t);
    SumReplace(s.threads, t, w, Worker(i, Fetch));
  }

  lemma SumReplace(threads: map<ThreadId, Thread>, t: ThreadId, w: ThreadId, th: Thread)
    requires t in threads && w !in threads
    ensures ThreadSum((threads - {t})[w := th]) == ThreadSum(threads) - ThreadWeight(threads[t]) + ThreadWeight(th)
  {
    var rest := threads - {t};
    ThreadOut(threads, t);
    assert rest - {w} == rest;
    ThreadPut(rest, w, th);
  }

  lemma PopLowers(s: State, t: ThreadId)
    requires Inv(s) && CanPop(s, t)
    ensures Measure(DoPop(s, t)) < Measure(s)
  {
    var q := QueueOf(s, s.threads[t].instance);
    ThreadSwap(s.threads, t, s.threads[t].(pc := Popped(q.pending[0])));
    QueueSwap(s, s.threads[t].instance, q.(pending := q.pending[1..]));
  }

  lemma RetireLowers(s: State, t: ThreadId)
    requires Inv(s) && CanRetire(s, t)
    ensures Measure(DoRetire(s, t)) < Measure(s)
  {
    ThreadOut(s.threads, t);
    QueueSwap(s, s.threads[t].instance, QueueOf(s, s.threads[t].instance).(active := false));
  }

  lemma UnlinkLowers(s: State, t: ThreadId)
    requires Inv(s) && CanUnlink(s, t)
    ensures Measure(DoUnlink(s, t)) < Measure(s)
  {
    var id := s.threads[t].job;
    var q := QueueOf(s, s.jobs[id].instance);
    var k := RemoveFirstCuts(q.pending, id);
    ThreadSwap(s.threads, t, s.threads[t].(stage := Settling));
    QueueSwap(s, s.jobs[id].instance, q.(pending := RemoveFirst(q.pending, id)));
  }

  lemma CancelRunningLowers(s: State, id: JobId)
    requires CanCancelRunning(s, id) && DoCancelRunning(s, id) != s
    ensures Measure(DoCancelRunning(s, id)) < Measure(s)
  {
    var j := s.jobs[id];
    JobSwap(s.jobs, id, j.(cancelRequested := true));
    assert j.cancelRequested ==> s.jobs[id := j] == s.jobs;
  }

  lemma CancelQueuedLowers(s: State, t: ThreadId, id: JobId)
    requires CanCancelQueued(s, t, id) && JobOk(s, id)
    ensures Measure(DoCancelQueued(s, t, id)) < Measure(s)
  {
    JobSwap(s.jobs, id, s.jobs[id].(cancelRequested := true, phase := PhaseDone));
    assert s.threads - {t} == s.threads;
    ThreadPut(s.threads, t, Canceller(id, Unlinking));
  }
}
