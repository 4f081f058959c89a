/** The durable queue record of one job and the seven transactions that change it, each a guarded
  * function from the stored record to the next one (backend/src/queue/jobQueue.js). `None` is the
  * updater's abort. One clock reading `at` stands for all readings of one updater. */
module QueueRecord {
  import opened Wrappers

  type Time = int

  /** A runtime: the machine and the instance of the process running on it. */
  datatype Identity = Identity(machineId: string, instanceId: string)

  datatype Status =
    | Queued | Validating | FilteringSites | LoadingAssets | Generating | Exporting | WaitingForUserInput | Cancelling
    | Completed | CompletedWithWarning | Failed | Cancelled | CancelledWithPartialResult

  predicate Active(status: Status) {
    status in {
      Queued, Validating, FilteringSites, LoadingAssets, Generating, Exporting, WaitingForUserInput, Cancelling
    }
  }

  predicate Terminal(status: Status) {
    status in {Completed, CompletedWithWarning, Failed, Cancelled, CancelledWithPartialResult}
  }

  datatype QueueState = Unset | InQueue | Claimed | Running | Stopping | Ended

  datatype Recovery = Pending | Recovered

  /** `queueRuntime`: who holds the job and until when. `Unset` with no owner is the missing object. */
  datatype Runtime = Runtime(
    queueState: QueueState,
    owner: Option<Identity>,
    claimedAt: Option<Time>,
    heartbeatAt: Option<Time>,
    leaseExpiresAt: Option<Time>,
    recovery: Option<Recovery>,
    cancellationRequested: bool)

  datatype EventKind = RuntimeFailed | RuntimeReconciled | CancellationRequested | CancellationCompleted

  datatype Event = Event(kind: EventKind, at: Time, author: Option<Identity>, previousOwner: Option<Identity>,
                         finalStatus: Option<Status>)

  datatype Summary = NoSummary | StoppedWithoutResult | Interrupted | CancelledByRecovery | WorkerSummary(text: string)

  datatype JobError =
    | UnhandledWorkerError
    | InterruptedByRestart(previousOwner: Option<Identity>)
    | WorkerError(code: string)

  datatype Job = Job(
    status: Status,
    runtime: Runtime,
    outputFileCount: nat,
    events: seq<Event>,
    startedAt: Option<Time>,
    completedAt: Option<Time>,
    cancelledAt: Option<Time>,
    summary: Summary,
    error: Option<JobError>,
    logicalDeleted: bool)

  const UNOWNED := Runtime(InQueue, None, None, None, None, None, false)

  /** What `createSkillJob` stores before it enqueues the job. */
  predicate Fresh(job: Job) {
    job.status == Queued && job.runtime == UNOWNED && !job.logicalDeleted
  }

  predicate LeaseValid(runtime: Runtime, at: Time) {
    runtime.leaseExpiresAt.Some? && runtime.leaseExpiresAt.value > at
  }

  predicate Owns(me: Identity, runtime: Runtime) {
    runtime.owner == Some(me)
  }

  predicate Held(runtime: Runtime, at: Time) {
    runtime.queueState in {Claimed, Running, Stopping} && LeaseValid(runtime, at)
  }

  predicate SameEvent(a: Event, b: Event) {
    a.kind == b.kind && a.author.Some? && b.author.Some? && a.author.value.instanceId == b.author.value.instanceId
  }

  /** One event per kind and runtime instance. */
  function AppendEvent(events: seq<Event>, event: Event): seq<Event> {
    if exists i | 0 <= i < |events| :: SameEvent(events[i], event) then events else events + [event]
  }

  function Claim(job: Job, me: Identity, at: Time, leaseMs: nat): Option<Job> {
    var current := job.runtime;
    if job.logicalDeleted || job.status != Queued then None
    else if current.queueState in {Claimed, Running} && LeaseValid(current, at) && !Owns(me, current) then None
    else Some(job.(runtime := current.(
      queueState := Running,
      owner := Some(me),
      claimedAt := if current.claimedAt.Some? && Owns(me, current) then current.claimedAt else Some(at),
      heartbeatAt := Some(at),
      leaseExpiresAt := Some(at + leaseMs),
      cancellationRequested := false)))
  }

  function Renew(job: Job, me: Identity, at: Time, leaseMs: nat): Option<Job> {
    if job.logicalDeleted || !Owns(me, job.runtime) || Terminal(job.status) then None
    else Some(job.(runtime := job.runtime.(
      queueState := if job.status == Cancelling then Stopping else Running,
      heartbeatAt := Some(at),
      leaseExpiresAt := Some(at + leaseMs))))
  }

  function Finalize(job: Job, me: Identity, at: Time): Option<Job> {
    if job.logicalDeleted || !Owns(me, job.runtime) then None
    else
      var updated :=
        if Active(job.status) then
          job.(status := Failed,
               completedAt := Some(at),
               summary := StoppedWithoutResult,
               error := Some(UnhandledWorkerError),
               events := AppendEvent(job.events, Event(RuntimeFailed, at, Some(me), None, None)))
        else job;
      Some(updated.(runtime := job.runtime.(queueState := Ended, heartbeatAt := Some(at), leaseExpiresAt := None)))
  }

  /** `persistQueuedState`, the transaction of `enqueueJob`. */
  function Enqueue(job: Job, recovered: bool, at: Time): Option<Job> {
    if job.logicalDeleted || Terminal(job.status) || Held(job.runtime, at) then None
    else Some(job.(status := Queued, runtime := UNOWNED.(recovery := if recovered then Some(Recovered) else None)))
  }

  /** The transaction of `cancelQueuedJob`. */
  function Cancel(job: Job, allowRunning: bool, at: Time): Option<Job> {
    var current := job.runtime;
    if job.logicalDeleted || Terminal(job.status) then None
    else if !allowRunning && (job.status != Queued || current.queueState in {Claimed, Running, Stopping}) then None
    else
      var held := Held(current, at);
      Some(job.(runtime := current.(
        queueState := if held then Stopping else Ended,
        heartbeatAt := Some(at),
        leaseExpiresAt := if held then current.leaseExpiresAt else None,
        cancellationRequested := true)))
  }

  /** The transaction of `reconcileInterruptedJob`. */
  function Reconcile(job: Job, me: Identity, at: Time): Option<Job> {
    var current := job.runtime;
    if job.logicalDeleted || !Active(job.status) || Held(current, at) then None
    else if job.status == Queued then
      Some(job.(runtime := UNOWNED.(recovery := Some(Recovered))))
    else
      var cancelled := job.status == Cancelling;
      var finalStatus :=
        if !cancelled then Failed else if job.outputFileCount > 0 then CancelledWithPartialResult else Cancelled;
      Some(job.(
        status := finalStatus,
        completedAt := Some(at),
        cancelledAt := if cancelled then Some(at) else job.cancelledAt,
        summary := if cancelled then CancelledByRecovery else Interrupted,
        error := if cancelled then job.error else Some(InterruptedByRestart(current.owner)),
        events := AppendEvent(job.events, Event(RuntimeReconciled, at, Some(me), current.owner, Some(finalStatus))),
        runtime := current.(
          queueState := Ended, heartbeatAt := Some(at), leaseExpiresAt := None, recovery := Some(Recovered))))
  }

  /** What `shutdownQueue` does to each job it is executing. */
  function Shutdown(job: Job, me: Identity, at: Time): Option<Job> {
    if job.logicalDeleted || !Owns(me, job.runtime) then None
    else Some(job.(runtime := job.runtime.(
      heartbeatAt := Some(at), leaseExpiresAt := Some(at), recovery := Some(Pending))))
  }

  datatype Transaction =
    | TClaim(me: Identity)
    | TRenew(me: Identity)
    | TFinalize(me: Identity)
    | TEnqueue(me: Identity, recovered: bool)
    | TCancel(me: Identity, allowRunning: bool)
    | TReconcile(me: Identity)
    | TShutdown(me: Identity)

  function Apply(tx: Transaction, job: Job, at: Time, leaseMs: nat): Option<Job> {
    match tx
    case TClaim(me) => Claim(job, me, at, leaseMs)
    case TRenew(me) => Renew(job, me, at, leaseMs)
    case TFinalize(me) => Finalize(job, me, at)
    case TEnqueue(_, recovered) => Enqueue(job, recovered, at)
    case TCancel(_, allowRunning) => Cancel(job, allowRunning, at)
    case TReconcile(me) => Reconcile(job, me, at)
    case TShutdown(me) => Shutdown(job, me, at)
  }

  lemma {:induction false} StatusIsActiveOrTerminal(status: Status)
    ensures Active(status) <==> !Terminal(status)
  {
  }

  /** No transaction changes a terminal status. */
  lemma {:induction false} TransactionsKeepTerminal(tx: Transaction, job: Job, at: Time, leaseMs: nat)
    requires Terminal(job.status) && Apply(tx, job, at, leaseMs).Some?
    ensures Apply(tx, job, at, leaseMs).value.status == job.status
    ensures tx.TFinalize? || tx.TShutdown?
  {
    StatusIsActiveOrTerminal(job.status);
  }

  /** Whose the job is after a transaction, whether a lease is running then, and what else may change. */
  lemma {:induction false} TransactionEffects(tx: Transaction, job: Job, at: Time, leaseMs: nat)
    requires Apply(tx, job, at, leaseMs).Some?
    ensures var after := Apply(tx, job, at, leaseMs).value;
            && after.runtime.owner == (if tx.TClaim? then Some(tx.me)
                                       else if tx.TEnqueue? || (tx.TReconcile? && job.status == Queued) then None
                                       else job.runtime.owner)
            && (LeaseValid(after.runtime, at) <==>
                  ((tx.TClaim? || tx.TRenew?) && leaseMs > 0) || (tx.TCancel? && Held(job.runtime, at)))
            && (tx.TClaim? || tx.TRenew? ==> after.runtime.leaseExpiresAt == Some(at + leaseMs))
            && (tx.TCancel? ==> after.runtime.leaseExpiresAt in {job.runtime.leaseExpiresAt, None})
            && (tx.TClaim? || tx.TRenew? || tx.TCancel? || tx.TShutdown? ==> after == job.(runtime := after.runtime))
            && after.outputFileCount == job.outputFileCount && after.startedAt == job.startedAt
            && (tx.TEnqueue? ==> after.status == Queued)
            && job.events <= after.events && !after.logicalDeleted
  {
  }

  /** Finalize commits exactly for the owner. A job without a recorded result ends as failed, with the
    * error that says so and an event of this runtime; a recorded result is left alone. The lease is gone. */
  lemma {:induction false} FinalizeEnds(job: Job, me: Identity, at: Time)
    ensures Finalize(job, me, at).Some? <==> !job.logicalDeleted && job.runtime.owner == Some(me)
    ensures Finalize(job, me, at).Some? ==>
              var done := Finalize(job, me, at).value;
              && (Terminal(job.status) ==> done == job.(runtime := done.runtime))
              && (!Terminal(job.status) ==>
                    && done.status == Failed && done.completedAt == Some(at) && done.cancelledAt == job.cancelledAt
                    && done.summary == StoppedWithoutResult && done.error == Some(UnhandledWorkerError)
                    && Reports(done.events, RuntimeFailed, me))
              && done.runtime.queueState == Ended && done.runtime.leaseExpiresAt == None
  {
    StatusIsActiveOrTerminal(job.status);
    AppendReports(job.events, Event(RuntimeFailed, at, Some(me), None, None));
  }

  /** Some event of this kind is by this runtime instance. */
  predicate Reports(events: seq<Event>, kind: EventKind, me: Identity) {
    exists i | 0 <= i < |events| ::
      events[i].kind == kind && events[i].author.Some? && events[i].author.value.instanceId == me.instanceId
  }

  lemma {:induction false} AppendReports(events: seq<Event>, event: Event)
    requires event.author.Some?
    ensures Reports(AppendEvent(events, event), event.kind, event.author.value)
    ensures AppendEvent(events, event) == events || AppendEvent(events, event) == events + [event]
    ensures AppendEvent(events, event) == events <==> Reports(events, event.kind, event.author.value)
  {
    assert forall i | 0 <= i < |events| :: SameEvent(events[i], event) <==>
             events[i].kind == event.kind && events[i].author.Some?
             && events[i].author.value.instanceId == event.author.value.instanceId;
    if exists i | 0 <= i < |events| :: SameEvent(events[i], event) {
      var i :| 0 <= i < |events| && SameEvent(events[i], event);
      assert events[i].kind == event.kind;
    } else {
      assert (events + [event])[|events|] == event;
    }
  }

  /** Someone's unexpired lease stands behind the queue state of the record. */
  predicate HeldByOther(runtime: Runtime, me: Identity, at: Time) {
    && runtime.queueState in {Claimed, Running}
    && runtime.leaseExpiresAt.Some? && at < runtime.leaseExpiresAt.value && runtime.owner != Some(me)
  }

  /** Who may do what when: a deleted record is refused to all; owners renew, finalize and shut down;
    * queued records are claimed unless another one holds them; enqueue, recovery and cancellations of
    * unclaimed jobs stay away from what is held or claimed. */
  lemma {:induction false} CommitsExactly(tx: Transaction, job: Job, at: Time, leaseMs: nat)
    ensures Apply(tx, job, at, leaseMs).Some? <==>
              && !job.logicalDeleted
              && (tx.TClaim? ==> job.status == Queued && !HeldByOther(job.runtime, tx.me, at))
              && (tx.TRenew? || tx.TFinalize? || tx.TShutdown? ==> job.runtime.owner == Some(tx.me))
              && (tx.TRenew? || tx.TEnqueue? || tx.TCancel? || tx.TReconcile? ==> !Terminal(job.status))
              && (tx.TCancel? && !tx.allowRunning ==>
                    job.status == Queued && job.runtime.queueState !in {Claimed, Running, Stopping})
              && (tx.TEnqueue? || tx.TReconcile? ==>
                    job.runtime.queueState in {Claimed, Running, Stopping} ==>
                      job.runtime.leaseExpiresAt.None? || job.runtime.leaseExpiresAt.value <= at)
  {
    StatusIsActiveOrTerminal(job.status);
  }

  /** The transaction gives the job back to the queue. */
  predicate Releases(tx: Transaction, job: Job) {
    tx.TEnqueue? || (tx.TReconcile? && job.status == Queued)
  }

  /** Every owned record says since when. */
  predicate OwnedIsDated(runtime: Runtime) {
    runtime.owner.Some? ==> runtime.claimedAt.Some? && runtime.heartbeatAt.Some?
  }

  /** The lease block field by field: the heartbeat is the reading of the last transaction, a claim is dated
    * when it begins and keeps that date while its runtime claims again, and a cancellation request stands
    * until the job is claimed or released. */
  lemma {:induction false} LeaseBlockAfter(tx: Transaction, job: Job, at: Time, leaseMs: nat)
    requires OwnedIsDated(job.runtime) && Apply(tx, job, at, leaseMs).Some?
    ensures var before, after := job.runtime, Apply(tx, job, at, leaseMs).value.runtime;
            && OwnedIsDated(after)
            && after.heartbeatAt == (if Releases(tx, job) then None else Some(at))
            && after.claimedAt == (if Releases(tx, job) then None
                                   else if tx.TClaim? && before.owner != Some(tx.me) then Some(at)
                                   else before.claimedAt)
            && (after.cancellationRequested <==>
                  tx.TCancel? || (before.cancellationRequested && !tx.TClaim? && !Releases(tx, job)))
            && (after.queueState == Stopping <==>
                  || (tx.TCancel? && Held(before, at)) || (tx.TRenew? && job.status == Cancelling)
                  || (tx.TShutdown? && before.queueState == Stopping))
            && (after.queueState == Running <==>
                  || tx.TClaim? || (tx.TRenew? && job.status != Cancelling)
                  || (tx.TShutdown? && before.queueState == Running))
            && (tx.TClaim? || tx.TRenew? || tx.TFinalize? || tx.TCancel? ==> after.recovery == before.recovery)
            && (tx.TReconcile? || (tx.TEnqueue? && tx.recovered) ==> after.recovery == Some(Recovered))
            && (tx.TShutdown? ==> after.recovery == Some(Pending) && after.leaseExpiresAt == Some(at))
  {
  }

  /** Exactly when a transaction of another runtime takes a job away from the holder of an unexpired
    * lease: a claim or an enqueue or recovery of a queued job whose queue state no longer says it is
    * held. A cancellation request (`Stopping`) opens this window to claims only. */
  lemma {:induction false} OwnerTakenExactly(tx: Transaction, job: Job, at: Time, leaseMs: nat, owner: Identity)
    requires job.runtime.owner == Some(owner) && owner != tx.me && LeaseValid(job.runtime, at)
    requires Apply(tx, job, at, leaseMs).Some?
    ensures Apply(tx, job, at, leaseMs).value.runtime.owner != Some(owner)
       <==> || (tx.TClaim? && job.runtime.queueState !in {Claimed, Running})
            || (tx.TEnqueue? && job.runtime.queueState !in {Claimed, Running, Stopping})
            || (tx.TReconcile? && job.status == Queued && job.runtime.queueState !in {Claimed, Running, Stopping})
  {
    TransactionEffects(tx, job, at, leaseMs);
  }

  /** Exactly when enqueueing puts a job that had left the queue back into it: replay is possible. */
  lemma {:induction false} EnqueueReplaysExactly(job: Job, recovered: bool, at: Time)
    requires job.status != Queued && !job.logicalDeleted
    ensures (Enqueue(job, recovered, at).Some? && Enqueue(job, recovered, at).value.status == Queued)
       <==> Active(job.status) && !Held(job.runtime, at)
  {
    StatusIsActiveOrTerminal(job.status);
  }
}
