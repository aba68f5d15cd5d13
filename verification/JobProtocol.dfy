/**
 The job runner of internal/jobs/runner.go as a labelled transition system.

 Every goroutine is a thread with a program counter, and every critical section is
 one step, so a run of the system is one interleaving of the source's atomic actions:
 `Enqueue` (register, append), `serveQueue` (pop or retire), `runJob` (two phase checks
 around the semaphore, open the log, mark running, invoke, return, decide, settle, close,
 release) and `Cancel` (flag a running job, or take over a queued one, unlink it from its
 queue, settle and close it).

 The state also holds auxiliary variables. No guard reads them; they record who owes a job
 its completion and in which order jobs were appended, popped and started.
 */
module JobProtocol {

  type JobId = nat
  type InstanceId = string
  type ThreadId = nat

  datatype Status = Queued | Running | Succeeded | Failed | Cancelled {
    predicate Terminal() {
      Succeeded? || Failed? || Cancelled?
    }

    // queued -> running -> terminal
    function Rank(): nat {
      if Queued? then 0 else if Running? then 1 else 2
    }
  }

  datatype Phase = PhaseQueued | PhaseRunning | PhaseDone

  /** How a job's Func came back: nil, an error wrapping context.Canceled, or any other error or panic. */
  datatype Outcome = Completed | Aborted | Errored

  datatype JobRecord = JobRecord(
    instance: InstanceId,
    phase: Phase,
    status: Status,
    cancelRequested: bool,
    closes: nat,       // how often the done channel was closed
    invocations: nat)  // how often Func was called

  datatype JobQueue = JobQueue(pending: seq<JobId>, active: bool)

  datatype Pc =
    | Fetch
    | Popped(id: JobId)
    | Waiting(id: JobId)
    | Admitted(id: JobId)
    | Opening(id: JobId)
    | Starting(id: JobId)
    | Invoking(id: JobId)
    | Executing(id: JobId)
    | Returned(id: JobId, outcome: Outcome)
    | Finishing(id: JobId, verdict: Status)
    | Closing(id: JobId)
    | Releasing

  datatype CancelStage = Unlinking | Settling | Sealing

  datatype Thread =
    | Enqueuer(job: JobId)
    | Worker(instance: InstanceId, pc: Pc)
    | Canceller(job: JobId, stage: CancelStage)

  /** The party that still has to bring a job to its end. */
  datatype Keeper = ByThread(t: ThreadId) | ByQueue | Nobody

  datatype State = State(
    maxConcurrent: nat,
    sem: nat,
    queues: map<InstanceId, JobQueue>,
    jobs: map<JobId, JobRecord>,
    threads: map<ThreadId, Thread>,
    // auxiliary variables
    keeper: map<JobId, Keeper>,
    enqueuer: map<JobId, ThreadId>,
    server: map<InstanceId, ThreadId>,
    appended: seq<JobId>,
    ticket: map<JobId, nat>,        // position in `appended`
    served: map<InstanceId, nat>,   // one past the ticket of the job popped last
    starts: seq<JobId>)

  datatype Step =
    | Register(t: ThreadId, id: JobId, instance: InstanceId)
    | Append(t: ThreadId, w: ThreadId)
    | Pop(t: ThreadId)
    | Retire(t: ThreadId)
    | CheckPhase(t: ThreadId)
    | Acquire(t: ThreadId)
    | GoRunning(t: ThreadId)
    | OpenLog(t: ThreadId, ok: bool)
    | MarkRunning(t: ThreadId)
    | Invoke(t: ThreadId)
    | Return(t: ThreadId, outcome: Outcome)
    | Decide(t: ThreadId)
    | Settle(t: ThreadId)
    | Close(t: ThreadId)
    | Release(t: ThreadId)
    | CancelRunning(id: JobId)
    | CancelQueued(t: ThreadId, id: JobId)
    | Unlink(t: ThreadId)

  function Init(maxConcurrent: nat): State {
    State(maxConcurrent, 0, map[], map[], map[], map[], map[], map[], [], map[], map[], [])
  }

  function QueueOf(s: State, instance: InstanceId): JobQueue {
    if instance in s.queues then s.queues[instance] else JobQueue([], false)
  }

  function Served(s: State, instance: InstanceId): nat {
    if instance in s.served then s.served[instance] else 0
  }

  /** removeFromQueue drops the first occurrence only. */
  function RemoveFirst(pending: seq<JobId>, id: JobId): seq<JobId> {
    if pending == [] then []
    else if pending[0] == id then pending[1..]
    else [pending[0]] + RemoveFirst(pending[1..], id)
  }

  function Verdict(outcome: Outcome, cancelled: bool): Status {
    if cancelled || outcome.Aborted? then Cancelled
    else if outcome.Errored? then Failed
    else Succeeded
  }

  predicate IsWorker(s: State, t: ThreadId) {
    t in s.threads && s.threads[t].Worker?
  }

  predicate IsCanceller(s: State, t: ThreadId) {
    t in s.threads && s.threads[t].Canceller?
  }

  function Goto(s: State, t: ThreadId, pc: Pc): State
    requires t in s.threads && s.threads[t].Worker?
  {
    s.(threads := s.threads[t := s.threads[t].(pc := pc)])
  }

  function WithKeeper(s: State, id: JobId, k: Keeper): State {
    s.(keeper := s.keeper[id := k])
  }

  // The keeper changes hands only if the job was really with `from`.
  function HandOver(s: State, id: JobId, from: Keeper, to: Keeper): State {
    if id in s.keeper && s.keeper[id] == from then WithKeeper(s, id, to) else s
  }

  /** Enqueue: the job record becomes visible (runner.go:268-277). */
  predicate CanRegister(s: State, t: ThreadId, id: JobId, instance: InstanceId) {
    t !in s.threads && id !in s.jobs
  }

  function DoRegister(s: State, t: ThreadId, id: JobId, instance: InstanceId): State
    requires CanRegister(s, t, id, instance)
  {
    WithKeeper(
      s.(jobs := s.jobs[id := JobRecord(instance, PhaseQueued, Queued, false, 0, 0)],
         threads := s.threads[t := Enqueuer(id)],
         enqueuer := s.enqueuer[id := t]),
      id, ByThread(t))
  }

  /** scheduleToQueue: append, and start a worker unless the queue has one (runner.go:289-302). */
  predicate CanAppend(s: State, t: ThreadId, w: ThreadId) {
    t in s.threads && s.threads[t].Enqueuer? && s.threads[t].job in s.jobs && w !in s.threads
  }

  function DoAppend(s: State, t: ThreadId, w: ThreadId): State
    requires CanAppend(s, t, w)
  {
    var id := s.threads[t].job;
    var instance := s.jobs[id].instance;
    var q := QueueOf(s, instance);
    var rest := s.threads - {t};
    var s1 := s.(
      queues := s.queues[instance := JobQueue(q.pending + [id], true)],
      threads := if q.active then rest else rest[w := Worker(instance, Fetch)],
      server := if q.active then s.server else s.server[instance := w],
      ticket := s.ticket[id := |s.appended|],
      appended := s.appended + [id]);
    HandOver(s1, id, ByThread(t), ByQueue)
  }

  /** serveQueue takes the head of its queue (runner.go:307-315). */
  predicate CanPop(s: State, t: ThreadId) {
    IsWorker(s, t) && s.threads[t].pc.Fetch? && QueueOf(s, s.threads[t].instance).pending != []
  }

  function DoPop(s: State, t: ThreadId): State
    requires CanPop(s, t)
  {
    var instance := s.threads[t].instance;
    var q := QueueOf(s, instance);
    var id := q.pending[0];
    var s1 := Goto(s.(queues := s.queues[instance := q.(pending := q.pending[1..])]), t, Popped(id));
    var s2 := s1.(served := s1.served[instance := if id in s.ticket then s.ticket[id] + 1 else 0]);
    HandOver(s2, id, ByQueue, ByThread(t))
  }

  /** serveQueue finds its queue empty and stops (runner.go:307-312). */
  predicate CanRetire(s: State, t: ThreadId) {
    IsWorker(s, t) && s.threads[t].pc.Fetch? && QueueOf(s, s.threads[t].instance).pending == []
  }

  function DoRetire(s: State, t: ThreadId): State
    requires CanRetire(s, t)
  {
    var instance := s.threads[t].instance;
    s.(queues := s.queues[instance := QueueOf(s, instance).(active := false)], threads := s.threads - {t})
  }

  /** runJob: skip a job that was cancelled while queued (runner.go:324-337). */
  predicate CanCheckPhase(s: State, t: ThreadId) {
    IsWorker(s, t) && s.threads[t].pc.Popped?
  }

  function DoCheckPhase(s: State, t: ThreadId): State
    requires CanCheckPhase(s, t)
  {
    var id := s.threads[t].pc.id;
    Goto(s, t, if id !in s.jobs || s.jobs[id].phase.PhaseDone? then Fetch else Waiting(id))
  }

  /** runJob takes a concurrency slot (runner.go:339-346). */
  predicate CanAcquire(s: State, t: ThreadId) {
    IsWorker(s, t) && s.threads[t].pc.Waiting? && s.sem < s.maxConcurrent
  }

  function DoAcquire(s: State, t: ThreadId): State
    requires CanAcquire(s, t)
  {
    Goto(s.(sem := s.sem + 1), t, Admitted(s.threads[t].pc.id))
  }

  /** runJob looks at the phase again, now holding a slot (runner.go:348-360). */
  predicate CanGoRunning(s: State, t: ThreadId) {
    IsWorker(s, t) && s.threads[t].pc.Admitted? && s.threads[t].pc.id in s.jobs
  }

  function DoGoRunning(s: State, t: ThreadId): State
    requires CanGoRunning(s, t)
  {
    var id := s.threads[t].pc.id;
    if s.jobs[id].phase.PhaseDone? then
      Goto(s, t, Releasing)
    else
      Goto(s.(jobs := s.jobs[id := s.jobs[id].(phase := PhaseRunning)],
              starts := s.starts + [id]), t, Opening(id))
  }

  /** runJob opens the job log; failing to is fatal for the job (runner.go:362-367). */
  predicate CanOpenLog(s: State, t: ThreadId, ok: bool) {
    IsWorker(s, t) && s.threads[t].pc.Opening?
  }

  function DoOpenLog(s: State, t: ThreadId, ok: bool): State
    requires CanOpenLog(s, t, ok)
  {
    var id := s.threads[t].pc.id;
    Goto(s, t, if ok then Starting(id) else Finishing(id, Failed))
  }

  /** markRunning (runner.go:463-472). */
  predicate CanMarkRunning(s: State, t: ThreadId) {
    IsWorker(s, t) && s.threads[t].pc.Starting? && s.threads[t].pc.id in s.jobs
  }

  function DoMarkRunning(s: State, t: ThreadId): State
    requires CanMarkRunning(s, t)
  {
    var id := s.threads[t].pc.id;
    Goto(s.(jobs := s.jobs[id := s.jobs[id].(status := Running)]), t, Invoking(id))
  }

  /** invoke calls the Func (runner.go:400-408). */
  predicate CanInvoke(s: State, t: ThreadId) {
    IsWorker(s, t) && s.threads[t].pc.Invoking? && s.threads[t].pc.id in s.jobs
  }

  function DoInvoke(s: State, t: ThreadId): State
    requires CanInvoke(s, t)
  {
    var id := s.threads[t].pc.id;
    Goto(s.(jobs := s.jobs[id := s.jobs[id].(invocations := s.jobs[id].invocations + 1)]), t, Executing(id))
  }

  /** The Func returns or panics. */
  predicate CanReturn(s: State, t: ThreadId, outcome: Outcome) {
    IsWorker(s, t) && s.threads[t].pc.Executing?
  }

  function DoReturn(s: State, t: ThreadId, outcome: Outcome): State
    requires CanReturn(s, t, outcome)
  {
    Goto(s, t, Returned(s.threads[t].pc.id, outcome))
  }

  /** runJob reads cancelRequested and settles on a verdict (runner.go:379-395). */
  predicate CanDecide(s: State, t: ThreadId) {
    IsWorker(s, t) && s.threads[t].pc.Returned? && s.threads[t].pc.id in s.jobs
  }

  function DoDecide(s: State, t: ThreadId): State
    requires CanDecide(s, t)
  {
    var id := s.threads[t].pc.id;
    Goto(s, t, Finishing(id, Verdict(s.threads[t].pc.outcome, s.jobs[id].cancelRequested)))
  }

  /** finish publishes status and phase under the record lock (runner.go:475-487). */
  predicate CanSettle(s: State, t: ThreadId) {
    || (IsWorker(s, t) && s.threads[t].pc.Finishing? && s.threads[t].pc.id in s.jobs)
    || (IsCanceller(s, t) && s.threads[t].stage.Settling? && s.threads[t].job in s.jobs)
  }

  function DoSettle(s: State, t: ThreadId): State
    requires CanSettle(s, t)
  {
    if s.threads[t].Worker? then
      var id := s.threads[t].pc.id;
      Goto(s.(jobs := s.jobs[id := s.jobs[id].(status := s.threads[t].pc.verdict, phase := PhaseDone)]), t, Closing(id))
    else
      var id := s.threads[t].job;
      s.(jobs := s.jobs[id := s.jobs[id].(status := Cancelled, phase := PhaseDone)],
         threads := s.threads[t := s.threads[t].(stage := Sealing)])
  }

  /** finish closes the done channel (runner.go:488). */
  predicate CanClose(s: State, t: ThreadId) {
    || (IsWorker(s, t) && s.threads[t].pc.Closing? && s.threads[t].pc.id in s.jobs)
    || (IsCanceller(s, t) && s.threads[t].stage.Sealing? && s.threads[t].job in s.jobs)
  }

  function DoClose(s: State, t: ThreadId): State
    requires CanClose(s, t)
  {
    var id := if s.threads[t].Worker? then s.threads[t].pc.id else s.threads[t].job;
    var s1 := s.(jobs := s.jobs[id := s.jobs[id].(closes := s.jobs[id].closes + 1)]);
    var s2 := WithKeeper(s1, id, Nobody);
    if s.threads[t].Worker? then Goto(s2, t, Releasing) else s2.(threads := s2.threads - {t})
  }

  /** The deferred receive gives the slot back (runner.go:346). */
  predicate CanRelease(s: State, t: ThreadId) {
    IsWorker(s, t) && s.threads[t].pc.Releasing? && s.sem > 0
  }

  function DoRelease(s: State, t: ThreadId): State
    requires CanRelease(s, t)
  {
    Goto(s.(sem := s.sem - 1), t, Fetch)
  }

  /** Cancel flags a running job (runner.go:432-438). */
  predicate CanCancelRunning(s: State, id: JobId) {
    id in s.jobs && s.jobs[id].phase.PhaseRunning?
  }

  function DoCancelRunning(s: State, id: JobId): State
    requires CanCancelRunning(s, id)
  {
    s.(jobs := s.jobs[id := s.jobs[id].(cancelRequested := true)])
  }

  /** Cancel takes over a queued job (runner.go:439-443). */
  predicate CanCancelQueued(s: State, t: ThreadId, id: JobId) {
    t !in s.threads && id in s.jobs && s.jobs[id].phase.PhaseQueued?
  }

  function DoCancelQueued(s: State, t: ThreadId, id: JobId): State
    requires CanCancelQueued(s, t, id)
  {
    WithKeeper(
      s.(jobs := s.jobs[id := s.jobs[id].(cancelRequested := true, phase := PhaseDone)],
         threads := s.threads[t := Canceller(id, Unlinking)]),
      id, ByThread(t))
  }

  /** removeFromQueue (runner.go:450-460). */
  predicate CanUnlink(s: State, t: ThreadId) {
    IsCanceller(s, t) && s.threads[t].stage.Unlinking? && s.threads[t].job in s.jobs
  }

  function DoUnlink(s: State, t: ThreadId): State
    requires CanUnlink(s, t)
  {
    var id := s.threads[t].job;
    var instance := s.jobs[id].instance;
    var q := QueueOf(s, instance);
    s.(queues := s.queues[instance := q.(pending := RemoveFirst(q.pending, id))],
       threads := s.threads[t := s.threads[t].(stage := Settling)])
  }

  predicate Enabled(s: State, step: Step) {
    match step
    case Register(t, id, instance) => CanRegister(s, t, id, instance)
    case Append(t, w) => CanAppend(s, t, w)
    case Pop(t) => CanPop(s, t)
    case Retire(t) => CanRetire(s, t)
    case CheckPhase(t) => CanCheckPhase(s, t)
    case Acquire(t) => CanAcquire(s, t)
    case GoRunning(t) => CanGoRunning(s, t)
    case OpenLog(t, ok) => CanOpenLog(s, t, ok)
    case MarkRunning(t) => CanMarkRunning(s, t)
    case Invoke(t) => CanInvoke(s, t)
    case Return(t, outcome) => CanReturn(s, t, outcome)
    case Decide(t) => CanDecide(s, t)
    case Settle(t) => CanSettle(s, t)
    case Close(t) => CanClose(s, t)
    case Release(t) => CanRelease(s, t)
    case CancelRunning(id) => CanCancelRunning(s, id)
    case CancelQueued(t, id) => CanCancelQueued(s, t, id)
    case Unlink(t) => CanUnlink(s, t)
  }

  function Apply(s: State, step: Step): State
    requires Enabled(s, step)
  {
    match step
    case Register(t, id, instance) => DoRegister(s, t, id, instance)
    case Append(t, w) => DoAppend(s, t, w)
    case Pop(t) => DoPop(s, t)
    case Retire(t) => DoRetire(s, t)
    case CheckPhase(t) => DoCheckPhase(s, t)
    case Acquire(t) => DoAcquire(s, t)
    case GoRunning(t) => DoGoRunning(s, t)
    case OpenLog(t, ok) => DoOpenLog(s, t, ok)
    case MarkRunning(t) => DoMarkRunning(s, t)
    case Invoke(t) => DoInvoke(s, t)
    case Return(t, outcome) => DoReturn(s, t, outcome)
    case Decide(t) => DoDecide(s, t)
    case Settle(t) => DoSettle(s, t)
    case Close(t) => DoClose(s, t)
    case Release(t) => DoRelease(s, t)
    case CancelRunning(id) => DoCancelRunning(s, id)
    case CancelQueued(t, id) => DoCancelQueued(s, t, id)
    case Unlink(t) => DoUnlink(s, t)
  }
}
