/** What becomes of a job over whole queue runs: which step can give it which status, what a cancellation
  * makes of it, and what a deletion ends. */
module QueueOutcomes {
  import opened Wrappers
  import opened QueueRecord
  import opened QueueRuns
  import opened QueueSafety

  // ---------- saves ----------

  /** The merge of one field: what the holder has not touched keeps the stored value. */
  predicate Merges<T(==)>(current: T, baseline: T, desired: T, saved: T) {
    saved == if desired == baseline then current else desired
  }

  predicate Mergeable<T(==)>(current: T, baseline: T, desired: T) {
    desired == baseline || current == baseline || current == desired
  }

  /** Exactly when a save of a job object commits, and what it leaves in each field. */
  lemma {:induction false} SaveMergesFields(current: Job, baseline: Job, desired: Job)
    ensures SaveJob(current, baseline, desired).Some? <==>
              && !current.logicalDeleted
              && Mergeable(current.status, baseline.status, desired.status)
              && Mergeable(current.runtime, baseline.runtime, desired.runtime)
              && Mergeable(current.outputFileCount, baseline.outputFileCount, desired.outputFileCount)
              && Mergeable(current.events, baseline.events, desired.events)
              && Mergeable(current.startedAt, baseline.startedAt, desired.startedAt)
              && Mergeable(current.completedAt, baseline.completedAt, desired.completedAt)
              && Mergeable(current.cancelledAt, baseline.cancelledAt, desired.cancelledAt)
              && Mergeable(current.summary, baseline.summary, desired.summary)
              && Mergeable(current.error, baseline.error, desired.error)
    ensures SaveJob(current, baseline, desired).Some? ==>
              var saved := SaveJob(current, baseline, desired).value;
              && Merges(current.status, baseline.status, desired.status, saved.status)
              && Merges(current.runtime, baseline.runtime, desired.runtime, saved.runtime)
              && Merges(current.outputFileCount, baseline.outputFileCount, desired.outputFileCount,
                        saved.outputFileCount)
              && Merges(current.events, baseline.events, desired.events, saved.events)
              && Merges(current.startedAt, baseline.startedAt, desired.startedAt, saved.startedAt)
              && Merges(current.completedAt, baseline.completedAt, desired.completedAt, saved.completedAt)
              && Merges(current.cancelledAt, baseline.cancelledAt, desired.cancelledAt, saved.cancelledAt)
              && Merges(current.summary, baseline.summary, desired.summary, saved.summary)
              && Merges(current.error, baseline.error, desired.error, saved.error)
              && !saved.logicalDeleted
  {
  }

  /** A runner that saves its result on the record it has loaded stores all of it. */
  lemma {:induction false} ResultIsStored(cfg: Config, now: Time, at: Time, cell: Cell, e: nat, status: Status,
                                          outputs: nat, summary: string, error: Option<JobError>)
    requires e in cell.execs && cell.execs[e].loaded == Some(cell.job) && cell.execs[e].started
    requires Terminal(status) && !cell.job.logicalDeleted
    ensures var cell' := CellAfter(cfg, now, at, cell, DoResultSave(e, status, outputs, summary, error));
            && cell'.job.status == status && cell'.job.outputFileCount == outputs
            && cell'.job.summary == WorkerSummary(summary) && cell'.job.error == error
            && cell'.job.completedAt == Some(at)
            && (status in {Cancelled, CancelledWithPartialResult} ==> cell'.job.cancelledAt == Some(at))
            && cell'.job.runtime == cell.job.runtime && cell'.job.events == cell.job.events
            && cell'.execs[e].loaded == Some(cell'.job)
  {
    OwnSaveCommits(cell.job, ResultDesired(cell.job, at, status, outputs, summary, error));
  }

  /** From any fresh job: a worker that stops without recording a result leaves a failed job. */
  lemma {:induction false} StoppedWorkerFails(cfg: Config, job: Job, me: Identity)
    requires Fresh(job)
    ensures var stopped := CellAfter(cfg, 0, 0, Started(cfg, job, me), DoFinalize(me));
            && stopped.job.status == Failed && stopped.job.error == Some(UnhandledWorkerError)
            && stopped.job.startedAt.Some? && stopped.job.runtime.leaseExpiresAt == None
  {
    var cell := Started(cfg, job, me);
    StartedShape(cfg, job, me);
    StartedOwner(cfg, job, me);
    FinalizeEnds(cell.job, me, 0);
  }

  lemma {:induction false} StartedOwner(cfg: Config, job: Job, me: Identity)
    requires Fresh(job)
    ensures Started(cfg, job, me).job.runtime.owner == Some(me) && Started(cfg, job, me).job.startedAt.Some?
  {
  }

  // ---------- which step gives which status ----------

  const CANCEL_STATUSES: set<Status> := {Cancelled, CancelledWithPartialResult, Cancelling}

  ghost predicate AnswersCancel(cell: Cell) {
    forall c | c in cell.cancels && cell.cancels[c].desired.Some? ::
      cell.cancels[c].desired.value.status in CANCEL_STATUSES
  }

  lemma {:induction false} CellStepKeepsAnswers(cfg: Config, now: Time, at: Time, cell: Cell, step: CellStep)
    requires AnswersCancel(cell)
    ensures AnswersCancel(CellAfter(cfg, now, at, cell, step))
  {
  }

  lemma {:induction false} RunKeepsAnswers(cfg: Config, steps: seq<Step>, id: JobId)
    ensures id in Execute(cfg, steps).cells ==> AnswersCancel(Execute(cfg, steps).cells[id])
    decreases |steps|
  {
    if steps != [] {
      var n := |steps| - 1;
      RunKeepsAnswers(cfg, steps[..n], id);
      var s, step := Execute(cfg, steps[..n]), steps[n];
      if step.On? && step.id == id && id in s.cells {
        CellStepKeepsAnswers(cfg, s.now, step.at, s.cells[id], step.step);
      }
    }
  }

  /** The steps that may give a job the status. */
  predicate MayGive(step: CellStep, status: Status) {
    match status
    case Queued => step.DoEnqueue?
    case Generating => step.DoFirstSave?
    case Cancelling => step.CancelSave?
    case Completed => step.DoResultSave? && step.status == Completed
    case CompletedWithWarning => step.DoResultSave? && step.status == CompletedWithWarning
    case Failed => (step.DoResultSave? && step.status == Failed) || step.DoFinalize? || step.DoReconcile?
    case Cancelled => (step.DoResultSave? && step.status == Cancelled) || step.CancelSave? || step.DoReconcile?
    case CancelledWithPartialResult =>
      (step.DoResultSave? && step.status == CancelledWithPartialResult) || step.CancelSave? || step.DoReconcile?
    case _ => false
  }

  lemma {:induction false} RunnerSaveStatus(cfg: Config, now: Time, at: Time, cell: Cell, step: CellStep)
    requires step.DoFirstSave? || step.DoResultSave?
    ensures var status := CellAfter(cfg, now, at, cell, step).job.status;
            status != cell.job.status ==> status == if step.DoFirstSave? then Generating else step.status
  {
    if step.exec in cell.execs && cell.execs[step.exec].loaded.Some? {
      var loaded := cell.execs[step.exec].loaded.value;
      var desired := if step.DoFirstSave? then StartDesired(loaded, at)
                     else ResultDesired(loaded, at, step.status, step.outputs, step.summary, step.error);
      if SaveJob(cell.job, loaded, desired).Some? {
        SaveStatus(cell.job, loaded, desired);
      }
    }
  }

  lemma {:induction false} CancelSaveStatus(cell: Cell, c: nat)
    requires AnswersCancel(cell)
    ensures var status := CancelSaveStep(cell, c).job.status; status == cell.job.status || status in CANCEL_STATUSES
  {
    if c in cell.cancels && cell.cancels[c].desired.Some? {
      var call := cell.cancels[c];
      if SaveJob(cell.job, call.loaded, call.desired.value).Some? {
        SaveStatus(cell.job, call.loaded, call.desired.value);
      }
    }
  }

  lemma {:induction false} CellStatusMoves(cfg: Config, now: Time, at: Time, cell: Cell, step: CellStep)
    requires AnswersCancel(cell)
    ensures var status := CellAfter(cfg, now, at, cell, step).job.status;
            status != cell.job.status ==> MayGive(step, status)
  {
    match step
    case DoFirstSave(_) => RunnerSaveStatus(cfg, now, at, cell, step);
    case DoResultSave(_, _, _, _, _) => RunnerSaveStatus(cfg, now, at, cell, step);
    case CancelSave(c) => CancelSaveStatus(cell, c);
    case _ =>
  }

  /** The runner's result save commits with a status that neither the record nor its object has. */
  predicate RecordsResult(at: Time, cell: Cell, step: CellStep) {
    && step.DoResultSave? && step.exec in cell.execs && cell.execs[step.exec].loaded.Some?
    && cell.execs[step.exec].started && Terminal(step.status)
    && var loaded := cell.execs[step.exec].loaded.value;
       && step.status != loaded.status && step.status != cell.job.status
       && SaveJob(cell.job, loaded,
                  ResultDesired(loaded, at, step.status, step.outputs, step.summary, step.error)).Some?
  }

  lemma {:induction false} ResultSaveMoves(cfg: Config, now: Time, at: Time, cell: Cell, step: CellStep)
    requires step.DoResultSave?
    ensures CellAfter(cfg, now, at, cell, step).job.status != cell.job.status <==> RecordsResult(at, cell, step)
  {
    if step.exec in cell.execs && cell.execs[step.exec].loaded.Some? {
      var loaded := cell.execs[step.exec].loaded.value;
      var desired := ResultDesired(loaded, at, step.status, step.outputs, step.summary, step.error);
      if SaveJob(cell.job, loaded, desired).Some? {
        SaveStatus(cell.job, loaded, desired);
      }
    }
  }

  /** In every run: a status changes only by a step that may give the new one, and a job becomes completed
    * exactly when a runner's committed result save says so: nothing else ever reports success. */
  lemma {:induction false} CompletesExactly(cfg: Config, steps: seq<Step>, n: nat, id: JobId)
    requires n < |steps| && id in Execute(cfg, steps[..n]).cells
    ensures id in Execute(cfg, steps[..n + 1]).cells
    ensures var before, after := Execute(cfg, steps[..n]).cells[id], Execute(cfg, steps[..n + 1]).cells[id];
            var step := steps[n];
            && (after.job.status != before.job.status ==>
                  step.On? && step.id == id && MayGive(step.step, after.job.status))
            && (after.job.status != before.job.status && after.job.status in {Completed, CompletedWithWarning} <==>
                  && step.On? && step.id == id && RecordsResult(step.at, before, step.step)
                  && step.step.status in {Completed, CompletedWithWarning})
  {
    var s, step := Execute(cfg, steps[..n]), steps[n];
    assert steps[..n + 1][..n] == steps[..n];
    RunKeepsAnswers(cfg, steps[..n], id);
    if step.On? && step.id == id {
      CellStatusMoves(cfg, s.now, step.at, s.cells[id], step.step);
      if step.step.DoResultSave? {
        ResultSaveMoves(cfg, s.now, step.at, s.cells[id], step.step);
        RunnerSaveStatus(cfg, s.now, step.at, s.cells[id], step.step);
      }
    }
  }

  // ---------- one cancellation with nobody in between ----------

  /** Load, queue transaction and save of one `cancelJob` call. */
  function Cancellation(at: Time, cell: Cell, c: nat, allowRunning: bool, queuedHere: bool, activeHere: bool,
                        later: Time): Cell
  {
    CancelSaveStep(AskStep(at, CancelLoadStep(cell, c, allowRunning), c, queuedHere, activeHere, later), c)
  }

  lemma {:induction false} CancellationSteps(cfg: Config, now: Time, at: Time, cell: Cell, c: nat, allowRunning: bool,
                                             queuedHere: bool, activeHere: bool, later: Time)
    ensures var loaded := CellAfter(cfg, now, at, cell, CancelLoad(c, allowRunning));
            var asked := CellAfter(cfg, now, at, loaded, CancelAsk(c, queuedHere, activeHere, later));
            CellAfter(cfg, now, at, asked, CancelSave(c))
            == Cancellation(at, cell, c, allowRunning, queuedHere, activeHere, later)
  {
  }

  /** A claimed or started job that does not support cancellation while it runs. */
  predicate Unsupported(job: Job, allowRunning: bool) {
    !allowRunning && (job.status != Queued || job.runtime.queueState in {Claimed, Running, Stopping})
  }

  /** The holder of an unexpired lease is there to stop the job, then and when the answer is looked at. */
  predicate RunBySomeone(runtime: Runtime, at: Time, later: Time) {
    && runtime.queueState in {Claimed, Running, Stopping}
    && runtime.leaseExpiresAt.Some? && at < runtime.leaseExpiresAt.value && later < runtime.leaseExpiresAt.value
  }

  predicate Requested(job: Job) {
    job.runtime.cancellationRequested && exists i | 0 <= i < |job.events| :: job.events[i].kind == CancellationRequested
  }

  /** What a supported cancellation makes of an active job. A running job keeps its owner and lease and is
    * told to stop; a job that nobody runs ends as cancelled, with its partial result exactly when it had
    * started and has outputs. */
  predicate CancelledAs(job: Job, done: Job, at: Time, queuedHere: bool, activeHere: bool, later: Time) {
    && Requested(done) && done.runtime.owner == job.runtime.owner
    && done.outputFileCount == job.outputFileCount && job.events <= done.events
    && done.startedAt == job.startedAt && done.error == job.error
    && (RunBySomeone(job.runtime, at, later) ==>
          && done.status == Cancelling && done.runtime.queueState == Stopping
          && done.runtime.leaseExpiresAt == job.runtime.leaseExpiresAt
          && done.cancelledAt == job.cancelledAt && done.completedAt == job.completedAt)
    && (!RunBySomeone(job.runtime, at, later) && !activeHere ==>
          && done.cancelledAt == Some(later)
          && done.completedAt == (if queuedHere || job.status != Queued then Some(later) else job.completedAt)
          && (queuedHere || job.status != Queued ==>
                exists i | 0 <= i < |done.events| :: done.events[i].kind == CancellationCompleted)
          && done.status == if job.status == Queued || queuedHere || job.outputFileCount == 0
                            then Cancelled else CancelledWithPartialResult)
    && (!RunBySomeone(job.runtime, at, later) && activeHere ==>
          done.status == if queuedHere then Cancelled else Cancelling)
    && (!Held(job.runtime, at) ==> done.runtime.queueState == Ended && done.runtime.leaseExpiresAt == None)
  }

  /** The outcome of the whole call; an unsupported cancellation changes nothing. */
  lemma {:induction false} CancellationOutcome(at: Time, cell: Cell, c: nat,
                                               allowRunning: bool, queuedHere: bool, activeHere: bool, later: Time)
    requires c !in cell.cancels && !Terminal(cell.job.status) && !cell.job.logicalDeleted
    ensures var done := Cancellation(at, cell, c, allowRunning, queuedHere, activeHere, later);
            && done.execs == cell.execs && done.cancels == cell.cancels
            && if Unsupported(cell.job, allowRunning) then done.job == cell.job
               else CancelledAs(cell.job, done.job, at, queuedHere, activeHere, later)
  {
    if Unsupported(cell.job, allowRunning) {
      UnsupportedEnds(at, cell, c, allowRunning, queuedHere, activeHere, later);
    } else {
      CancellationSaves(at, cell, c, allowRunning, queuedHere, activeHere, later);
      SavedAsCancelled(cell.job, allowRunning, at, queuedHere, activeHere, later);
    }
  }

  lemma {:induction false} UnsupportedEnds(at: Time, cell: Cell, c: nat, allowRunning: bool,
                                           queuedHere: bool, activeHere: bool, later: Time)
    requires c !in cell.cancels && !Terminal(cell.job.status) && !cell.job.logicalDeleted
    requires Unsupported(cell.job, allowRunning)
    ensures var done := Cancellation(at, cell, c, allowRunning, queuedHere, activeHere, later);
            done.job == cell.job && done.execs == cell.execs && done.cancels == cell.cancels
  {
    var loaded := CancelLoadStep(cell, c, allowRunning);
    assert loaded.cancels - {c} == cell.cancels;
  }

  lemma {:induction false} CancellationSaves(at: Time, cell: Cell, c: nat, allowRunning: bool,
                                             queuedHere: bool, activeHere: bool, later: Time)
    requires c !in cell.cancels && !Terminal(cell.job.status) && !cell.job.logicalDeleted
    requires !Unsupported(cell.job, allowRunning)
    ensures Cancel(cell.job, allowRunning, at).Some?
    ensures var snapshot := Cancel(cell.job, allowRunning, at).value;
            var done := Cancellation(at, cell, c, allowRunning, queuedHere, activeHere, later);
            && done.job == CancelDesired(cell.job, snapshot, later, queuedHere, activeHere)
            && done.execs == cell.execs && done.cancels == cell.cancels
  {
    var snapshot := Cancel(cell.job, allowRunning, at).value;
    var desired := CancelDesired(cell.job, snapshot, later, queuedHere, activeHere);
    var loaded := CancelLoadStep(cell, c, allowRunning);
    var asked := AskStep(at, loaded, c, queuedHere, activeHere, later);
    CancellationAsks(at, loaded, c, queuedHere, activeHere, later);
    CancelSaveCommits(cell.job, snapshot, desired);
    CancellationEnds(asked, c, desired);
    assert asked.cancels - {c} == cell.cancels;
  }

  lemma {:induction false} CancellationAsks(at: Time, loaded: Cell, c: nat, queuedHere: bool, activeHere: bool,
                                            later: Time)
    requires c in loaded.cancels && loaded.cancels[c].loaded == loaded.job && loaded.cancels[c].desired.None?
    requires Cancel(loaded.job, loaded.cancels[c].allowRunning, at).Some?
    ensures var call := loaded.cancels[c];
            var snapshot := Cancel(loaded.job, call.allowRunning, at).value;
            var desired := CancelDesired(loaded.job, snapshot, later, queuedHere, activeHere);
            var asked := AskStep(at, loaded, c, queuedHere, activeHere, later);
            && asked.job == snapshot && asked.execs == loaded.execs
            && asked.cancels == loaded.cancels[c := CancelCall(loaded.job, call.allowRunning, Some(desired))]
  {
  }

  lemma {:induction false} CancellationEnds(asked: Cell, c: nat, desired: Job)
    requires c in asked.cancels && asked.cancels[c].desired == Some(desired)
    requires SaveJob(asked.job, asked.cancels[c].loaded, desired) == Some(desired)
    ensures var done := CancelSaveStep(asked, c);
            done.job == desired && done.execs == asked.execs && done.cancels == asked.cancels - {c}
  {
  }

  lemma {:induction false} SavedAsCancelled(job: Job, allowRunning: bool, at: Time, queuedHere: bool, activeHere: bool,
                                            later: Time)
    requires Cancel(job, allowRunning, at).Some?
    ensures var snapshot := Cancel(job, allowRunning, at).value;
            CancelledAs(job, CancelDesired(job, snapshot, later, queuedHere, activeHere), at, queuedHere, activeHere,
                        later)
  {
    DesiredIsRequested(job, Cancel(job, allowRunning, at).value, later, queuedHere, activeHere);
  }

  /** The queue transaction has changed nothing but the lease block, which the object has taken over. */
  lemma {:induction false} CancelSaveCommits(loaded: Job, snapshot: Job, desired: Job)
    requires snapshot == loaded.(runtime := snapshot.runtime) && desired.runtime == snapshot.runtime
    requires !loaded.logicalDeleted && !desired.logicalDeleted
    ensures SaveJob(snapshot, loaded, desired) == Some(desired)
  {
  }

  lemma {:induction false} DesiredIsRequested(loaded: Job, snapshot: Job, at: Time, queuedHere: bool, activeHere: bool)
    ensures var desired := CancelDesired(loaded, snapshot, at, queuedHere, activeHere);
            && loaded.events <= desired.events
            && (desired.status != Cancelling && (queuedHere || loaded.status != Queued) ==>
                  exists i | 0 <= i < |desired.events| :: desired.events[i].kind == CancellationCompleted)
            && exists i | 0 <= i < |desired.events| :: desired.events[i].kind == CancellationRequested
  {
    var requested := AddStatusEvent(loaded.events, CancellationRequested, at);
    EventAdded(loaded.events, CancellationRequested, at);
    EventAdded(requested, CancellationCompleted, at);
    var i :| 0 <= i < |requested| && requested[i].kind == CancellationRequested;
    var desired := CancelDesired(loaded, snapshot, at, queuedHere, activeHere);
    assert desired.events[i].kind == CancellationRequested;
  }

  lemma {:induction false} EventAdded(events: seq<Event>, kind: EventKind, at: Time)
    ensures var after := AddStatusEvent(events, kind, at);
            events <= after && |after| <= |events| + 1 && exists i | 0 <= i < |after| :: after[i].kind == kind
  {
    if !exists i | 0 <= i < |events| :: events[i].kind == kind {
      assert AddStatusEvent(events, kind, at)[|events|].kind == kind;
    }
  }

  // ---------- deletion ----------

  lemma {:induction false} DeletedIsFrozen(cfg: Config, now: Time, at: Time, cell: Cell, step: CellStep)
    ensures CellAfter(cfg, now, at, cell, step).job.logicalDeleted <==> cell.job.logicalDeleted || step.DoDelete?
    ensures cell.job.logicalDeleted || step.DoDelete? ==>
              CellAfter(cfg, now, at, cell, step).job == cell.job.(logicalDeleted := true)
  {
  }

  /** Over every run: once the clean-up of its creation has deleted a record, no step changes it again. */
  lemma {:induction false} DeletedForGood(cfg: Config, steps: seq<Step>, i: nat, id: JobId)
    requires i <= |steps| && id in Execute(cfg, steps[..i]).cells
    requires Execute(cfg, steps[..i]).cells[id].job.logicalDeleted
    ensures id in Execute(cfg, steps).cells
    ensures Execute(cfg, steps).cells[id].job == Execute(cfg, steps[..i]).cells[id].job
    decreases |steps|
  {
    if i == |steps| {
      assert steps[..i] == steps;
    } else {
      var n := |steps| - 1;
      assert steps[..n][..i] == steps[..i];
      DeletedForGood(cfg, steps[..n], i, id);
      var s, step := Execute(cfg, steps[..n]), steps[n];
      if step.On? && step.id == id {
        DeletedIsFrozen(cfg, s.now, step.at, s.cells[id], step.step);
      }
    }
  }
}
