/** Whole timed runs of the durable queue: many jobs, many runtimes, one clock with bounded reading
  * error, and every await an interleaving point (backend/src/queue/jobQueue.js with its callers
  * `runGenericSkillJob` and `cancelJob`). Claims, heartbeats, runner saves, cancellations, recovery,
  * enqueues and shutdowns interleave freely; the theorems name the hypotheses they need. */
module QueueRuns {
  import opened Wrappers
  import opened QueueRecord
  import JobSave

  type JobId = string

  /** `heartbeatMs` is the timer period, `delayMs` bounds how late a beat commits, `clockErrorMs` how
    * far a clock reading may run ahead of the common time. */
  datatype Config = Config(leaseMs: nat, heartbeatMs: nat, delayMs: nat, clockErrorMs: nat)

  /** The period `startLeaseHeartbeat` uses, for the configured minima of both settings. */
  function HeartbeatPeriod(leaseMs: nat, heartbeatIntervalMs: nat): nat {
    if heartbeatIntervalMs <= leaseMs / 2 then heartbeatIntervalMs else leaseMs / 2
  }

  predicate Timely(cfg: Config) {
    cfg.clockErrorMs + cfg.delayMs < cfg.leaseMs - cfg.heartbeatMs
  }

  /** With the configured minima at least half of the lease, five seconds, is left for skew and delay. */
  lemma {:induction false} PeriodLeavesHalfTheLease(leaseMs: nat, heartbeatIntervalMs: nat, delayMs: nat,
                                                    clockErrorMs: nat)
    requires leaseMs >= 10000 && heartbeatIntervalMs >= 1000 && clockErrorMs + delayMs < 5000
    ensures Timely(Config(leaseMs, HeartbeatPeriod(leaseMs, heartbeatIntervalMs), delayMs, clockErrorMs))
    ensures 1000 <= HeartbeatPeriod(leaseMs, heartbeatIntervalMs) <= heartbeatIntervalMs
  {
  }

  // ---------- one job ----------

  /** One execution: from the claim until its runner returns or throws, which is the lifetime of its
    * heartbeat timer. `beatAt` is when its claim or last renewal committed. */
  datatype Exec = Exec(who: Identity, beatAt: Time, loaded: Option<Job>, started: bool)

  /** One `cancelJob` call: the object it loaded, and after its queue transaction what it will save. */
  datatype CancelCall = CancelCall(loaded: Job, allowRunning: bool, desired: Option<Job>)

  /** A job record with everything in flight on it. History: `left` once the status has left `queued`,
    * `starts` counts saves that moved it from `queued` to `generating`, `stamp` has the largest reading
    * that a claim, renewal or shutdown of each runtime has stored. */
  datatype Cell = Cell(job: Job, execs: map<nat, Exec>, cancels: map<nat, CancelCall>, left: bool, starts: nat,
                       stamp: map<Identity, Time>)

  /** `Job.save` on the fields of this model, each merged three ways. */
  function SaveJob(current: Job, baseline: Job, desired: Job): Option<Job> {
    var status := JobSave.MergeField(current.status, baseline.status, desired.status);
    var runtime := JobSave.MergeField(current.runtime, baseline.runtime, desired.runtime);
    var outputs := JobSave.MergeField(current.outputFileCount, baseline.outputFileCount, desired.outputFileCount);
    var events := JobSave.MergeField(current.events, baseline.events, desired.events);
    var startedAt := JobSave.MergeField(current.startedAt, baseline.startedAt, desired.startedAt);
    var completedAt := JobSave.MergeField(current.completedAt, baseline.completedAt, desired.completedAt);
    var cancelledAt := JobSave.MergeField(current.cancelledAt, baseline.cancelledAt, desired.cancelledAt);
    var summary := JobSave.MergeField(current.summary, baseline.summary, desired.summary);
    var error := JobSave.MergeField(current.error, baseline.error, desired.error);
    if current.logicalDeleted || status.None? || runtime.None? || outputs.None? || events.None? || startedAt.None?
       || completedAt.None? || cancelledAt.None? || summary.None? || error.None?
    then None
    else Some(Job(status.value, runtime.value, outputs.value, events.value, startedAt.value, completedAt.value,
                  cancelledAt.value, summary.value, error.value, current.logicalDeleted))
  }

  function AddStatusEvent(events: seq<Event>, kind: EventKind, at: Time): seq<Event> {
    if exists i | 0 <= i < |events| :: events[i].kind == kind then events
    else events + [Event(kind, at, None, None, None)]
  }

  /** The status `cancelJob` saves after the queue answered. */
  function CancelStatus(loaded: Job, running: bool, queuedHere: bool, activeHere: bool): Status {
    if queuedHere && !running then Cancelled
    else if running || activeHere then Cancelling
    else if loaded.status != Queued && loaded.outputFileCount > 0 then CancelledWithPartialResult
    else Cancelled
  }

  function CancelDesired(loaded: Job, snapshot: Job, at: Time, queuedHere: bool, activeHere: bool): Job {
    var running := snapshot.runtime.queueState == Stopping && LeaseValid(snapshot.runtime, at);
    var status := CancelStatus(loaded, running, queuedHere, activeHere);
    var requested := AddStatusEvent(loaded.events, CancellationRequested, at);
    var completed := status != Cancelling && (queuedHere || loaded.status != Queued);
    loaded.(
      runtime := snapshot.runtime,
      status := status,
      cancelledAt := if status == Cancelling then loaded.cancelledAt else Some(at),
      completedAt := if completed then Some(at) else loaded.completedAt,
      summary := if status == Cancelling then loaded.summary else WorkerSummary("cancelled"),
      events := if completed then AddStatusEvent(requested, CancellationCompleted, at) else requested)
  }

  datatype CellStep =
    | DoClaim(exec: nat, me: Identity)
    | DoLoad(exec: nat)
    | DoFirstSave(exec: nat)
    | DoResultSave(exec: nat, status: Status, outputs: nat, summary: string, error: Option<JobError>)
    | DoEnd(exec: nat)
    | DoRenew(exec: nat)
    | DoFinalize(me: Identity)
    | DoEnqueue(recovered: bool)
    | DoReconcile(me: Identity)
    | DoShutdown(me: Identity)
    | CancelLoad(call: nat, allowRunning: bool)
    | CancelAsk(call: nat, queuedHere: bool, activeHere: bool, later: Time)
    | CancelSave(call: nat)
    | DoDelete

  function OrSame(result: Option<Job>, job: Job): Job {
    if result.Some? then result.value else job
  }

  function WithJob(cell: Cell, job: Job): Cell {
    cell.(job := job, left := cell.left || job.status != Queued)
  }

  function Stamped(stamp: map<Identity, Time>, me: Identity, at: Time): map<Identity, Time> {
    if me in stamp && stamp[me] > at then stamp else stamp[me := at]
  }

  function ClaimStep(cfg: Config, now: Time, at: Time, cell: Cell, e: nat, me: Identity): Cell {
    var r := Claim(cell.job, me, at, cfg.leaseMs);
    if e in cell.execs || r.None? then cell
    else WithJob(cell, r.value).(
      execs := cell.execs[e := Exec(me, now, None, false)],
      stamp := Stamped(cell.stamp, me, at))
  }

  function LoadStep(cell: Cell, e: nat): Cell {
    if e !in cell.execs || cell.execs[e].loaded.Some? || cell.job.logicalDeleted then cell
    else cell.(execs := cell.execs[e := cell.execs[e].(loaded := Some(cell.job))])
  }

  function StartDesired(loaded: Job, at: Time): Job {
    loaded.(status := Generating, startedAt := if loaded.startedAt.Some? then loaded.startedAt else Some(at))
  }

  function ResultDesired(loaded: Job, at: Time, status: Status, outputs: nat, summary: string,
                         error: Option<JobError>): Job {
    loaded.(
      status := status, outputFileCount := outputs, summary := WorkerSummary(summary), error := error,
      completedAt := Some(at),
      cancelledAt := if status in {Cancelled, CancelledWithPartialResult} then Some(at) else loaded.cancelledAt)
  }

  /** The runner's first save; if it conflicts the runner throws. */
  function FirstSaveStep(at: Time, cell: Cell, e: nat): Cell {
    if e !in cell.execs || cell.execs[e].loaded.None? || cell.execs[e].started then cell
    else
      var loaded := cell.execs[e].loaded.value;
      var r := SaveJob(cell.job, loaded, StartDesired(loaded, at));
      if r.None? then cell.(execs := cell.execs - {e})
      else WithJob(cell, r.value).(
        execs := cell.execs[e := cell.execs[e].(loaded := r, started := true)],
        starts := cell.starts + (if cell.job.status == Queued && r.value.status == Generating then 1 else 0))
  }

  /** `persistResult` or `failJob`; after a conflict the runner may try again or end. */
  function ResultSaveStep(at: Time, cell: Cell, e: nat, status: Status, outputs: nat, summary: string,
                          error: Option<JobError>): Cell {
    if e !in cell.execs || cell.execs[e].loaded.None? || !cell.execs[e].started || !Terminal(status) then cell
    else
      var loaded := cell.execs[e].loaded.value;
      var r := SaveJob(cell.job, loaded, ResultDesired(loaded, at, status, outputs, summary, error));
      if r.None? then cell
      else WithJob(cell, r.value).(execs := cell.execs[e := cell.execs[e].(loaded := r)])
  }

  function RenewStep(cfg: Config, now: Time, at: Time, cell: Cell, e: nat): Cell {
    if e !in cell.execs then cell
    else
      var r := Renew(cell.job, cell.execs[e].who, at, cfg.leaseMs);
      if r.None? then cell
      else WithJob(cell, r.value).(
        execs := cell.execs[e := cell.execs[e].(beatAt := now)],
        stamp := Stamped(cell.stamp, cell.execs[e].who, at))
  }

  /** The lease is given up at once; runners go on until the process exits. */
  function ShutdownStep(at: Time, cell: Cell, me: Identity): Cell {
    var r := Shutdown(cell.job, me, at);
    if r.None? then cell else WithJob(cell, r.value).(stamp := Stamped(cell.stamp, me, at))
  }

  /** Deleted records are not found, and a terminal status is answered at once. */
  function CancelLoadStep(cell: Cell, c: nat, allowRunning: bool): Cell {
    if c in cell.cancels || Terminal(cell.job.status) || cell.job.logicalDeleted then cell
    else cell.(cancels := cell.cancels[c := CancelCall(cell.job, allowRunning, None)])
  }

  /** The queue transaction of a cancellation; an unsupported cancellation ends there. The lease is looked
    * at again when the transaction has answered, at a reading `later` that is left free. */
  function AskStep(at: Time, cell: Cell, c: nat, queuedHere: bool, activeHere: bool, later: Time): Cell {
    if c !in cell.cancels || cell.cancels[c].desired.Some? then cell
    else
      var call := cell.cancels[c];
      var r := Cancel(cell.job, call.allowRunning, at);
      var snapshot := OrSame(r, cell.job);
      if !call.allowRunning && r.None? && !Terminal(snapshot.status) then
        cell.(cancels := cell.cancels - {c})
      else
        var desired := CancelDesired(call.loaded, snapshot, later, queuedHere, activeHere);
        WithJob(cell, snapshot).(cancels := cell.cancels[c := call.(desired := Some(desired))])
  }

  function CancelSaveStep(cell: Cell, c: nat): Cell {
    if c !in cell.cancels || cell.cancels[c].desired.None? then cell
    else
      var call := cell.cancels[c];
      var saved := OrSame(SaveJob(cell.job, call.loaded, call.desired.value), cell.job);
      WithJob(cell, saved).(cancels := cell.cancels - {c})
  }

  /** One step on one job at common time `now` with clock reading `at`. `DoDelete` is the clean-up of a
    * creation that failed after the record was stored. A step that is not enabled changes nothing. */
  function CellAfter(cfg: Config, now: Time, at: Time, cell: Cell, step: CellStep): Cell {
    match step
    case DoClaim(e, me) => ClaimStep(cfg, now, at, cell, e, me)
    case DoLoad(e) => LoadStep(cell, e)
    case DoFirstSave(e) => FirstSaveStep(at, cell, e)
    case DoResultSave(e, status, outputs, summary, error) =>
      ResultSaveStep(at, cell, e, status, outputs, summary, error)
    case DoEnd(e) => cell.(execs := cell.execs - {e})
    case DoRenew(e) => RenewStep(cfg, now, at, cell, e)
    case DoFinalize(me) => WithJob(cell, OrSame(Finalize(cell.job, me, at), cell.job))
    case DoEnqueue(recovered) => WithJob(cell, OrSame(Enqueue(cell.job, recovered, at), cell.job))
    case DoReconcile(me) => WithJob(cell, OrSame(Reconcile(cell.job, me, at), cell.job))
    case DoShutdown(me) => ShutdownStep(at, cell, me)
    case CancelLoad(c, allowRunning) => CancelLoadStep(cell, c, allowRunning)
    case CancelAsk(c, queuedHere, activeHere, later) => AskStep(at, cell, c, queuedHere, activeHere, later)
    case CancelSave(c) => CancelSaveStep(cell, c)
    case DoDelete => cell.(job := cell.job.(logicalDeleted := true))
  }

  function NewCell(job: Job): Cell {
    Cell(job, map[], map[], false, 0, map[])
  }

  // ---------- many jobs and time ----------

  datatype State = State(now: Time, cells: map<JobId, Cell>)

  datatype Step =
    | Tick(milliseconds: nat)
    | Create(id: JobId, job: Job)
    | On(id: JobId, at: Time, step: CellStep)

  function After(cfg: Config, s: State, step: Step): State {
    match step
    case Tick(ms) => s.(now := s.now + ms)
    case Create(id, job) =>
      if id in s.cells then s else s.(cells := s.cells[id := NewCell(job)])
    case On(id, at, step) =>
      if id !in s.cells then s
      else s.(cells := s.cells[id := CellAfter(cfg, s.now, at, s.cells[id], step)])
  }

  /** The guards of `persistQueuedState` refuse the record. */
  predicate EnqueueRefused(job: Job, at: Time) {
    job.logicalDeleted || Terminal(job.status) || Held(job.runtime, at)
  }

  /** Records are created fresh, and enqueueing commits only on records that have never left `queued`:
    * an enqueue of a started job is refused. */
  ghost predicate FreshOnly(s: State, step: Step) {
    && (step.Create? ==> Fresh(step.job))
    && (step.On? && step.id in s.cells && step.step.DoEnqueue? ==>
          !s.cells[step.id].left || EnqueueRefused(s.cells[step.id].job, step.at))
  }

  /** A cancellation that allows for running jobs, on a claimed job whose runner has not saved yet. */
  predicate CancelsEarly(cell: Cell, step: CellStep) {
    && step.CancelAsk? && step.call in cell.cancels && cell.cancels[step.call].allowRunning
    && cell.execs != map[] && cell.job.status == Queued
  }

  /** A shutdown of the runtime that executes the job. */
  predicate ShutsDownExecutor(cell: Cell, step: CellStep) {
    step.DoShutdown? && exists e | e in cell.execs :: cell.execs[e].who == step.me
  }

  /** Clock readings are bounded, and no beat of an execution is overdue while its job is still `queued`. */
  ghost predicate OnTime(cfg: Config, s: State, step: Step) {
    && (step.On? ==> s.now <= step.at <= s.now + cfg.clockErrorMs)
    && (step.Tick? ==> forall id, e | id in s.cells && e in s.cells[id].execs && s.cells[id].job.status == Queued ::
          s.now + step.milliseconds <= s.cells[id].execs[e].beatAt + cfg.heartbeatMs + cfg.delayMs)
  }

  /** Between a claim of this job and the runner's first status save, a cancellation that allows for
    * running jobs or a shutdown of the executor commits. */
  predicate Interferes(s: State, step: Step, id: JobId) {
    && step.On? && step.id == id && id in s.cells
    && (CancelsEarly(s.cells[id], step.step)
        || (ShutsDownExecutor(s.cells[id], step.step) && s.cells[id].job.status == Queued))
  }

  /** On time and without interference on any job. */
  ghost predicate Disciplined(cfg: Config, s: State, step: Step) {
    OnTime(cfg, s, step) && (step.On? ==> !Interferes(s, step, step.id))
  }

  function Execute(cfg: Config, steps: seq<Step>): State
    decreases |steps|
  {
    if steps == [] then State(0, map[])
    else After(cfg, Execute(cfg, steps[..|steps| - 1]), steps[|steps| - 1])
  }

  ghost predicate FreshRun(cfg: Config, steps: seq<Step>) {
    forall i | 0 <= i < |steps| :: FreshOnly(Execute(cfg, steps[..i]), steps[i])
  }

  ghost predicate OnTimeRun(cfg: Config, steps: seq<Step>) {
    forall i | 0 <= i < |steps| :: OnTime(cfg, Execute(cfg, steps[..i]), steps[i])
  }

  ghost predicate UndisturbedRun(cfg: Config, steps: seq<Step>, id: JobId) {
    forall i | 0 <= i < |steps| :: !Interferes(Execute(cfg, steps[..i]), steps[i], id)
  }

  ghost predicate DisciplinedRun(cfg: Config, steps: seq<Step>) {
    forall i | 0 <= i < |steps| :: Disciplined(cfg, Execute(cfg, steps[..i]), steps[i])
  }

  // ---------- no replay ----------

  ghost predicate ReplayInv(cell: Cell) {
    && (cell.left <==> cell.job.status != Queued)
    && cell.starts <= (if cell.left then 1 else 0)
    && (forall e | e in cell.execs && cell.execs[e].loaded.Some? && cell.execs[e].loaded.value.status != Queued ::
         cell.left)
    && (forall c | c in cell.cancels && cell.cancels[c].loaded.status != Queued :: cell.left)
    && (forall c | c in cell.cancels && cell.cancels[c].desired.Some? :: cell.cancels[c].desired.value.status != Queued)
  }

  lemma {:induction false} SaveStatus(current: Job, baseline: Job, desired: Job)
    requires SaveJob(current, baseline, desired).Some?
    ensures var saved := SaveJob(current, baseline, desired).value;
            && saved.status == (if desired.status == baseline.status then current.status else desired.status)
            && (desired.status != baseline.status ==> current.status in {baseline.status, desired.status})
            && saved.runtime == (if desired.runtime == baseline.runtime then current.runtime else desired.runtime)
            && (desired.runtime != baseline.runtime ==> current.runtime in {baseline.runtime, desired.runtime})
            && !saved.logicalDeleted
  {
  }

  lemma {:induction false} LoadKeepsReplayInv(cfg: Config, now: Time, at: Time, cell: Cell, step: CellStep)
    requires ReplayInv(cell) && (step.DoLoad? || step.DoEnd? || step.CancelLoad?)
    ensures ReplayInv(CellAfter(cfg, now, at, cell, step)) && CellAfter(cfg, now, at, cell, step).job == cell.job
  {
  }

  lemma {:induction false} ResultSaveKeepsReplayInv(cfg: Config, now: Time, at: Time, cell: Cell, step: CellStep)
    requires ReplayInv(cell) && step.DoResultSave?
    ensures ReplayInv(CellAfter(cfg, now, at, cell, step))
    ensures var job := CellAfter(cfg, now, at, cell, step).job; job == cell.job || job.status != Queued
  {
    if step.exec in cell.execs && cell.execs[step.exec].loaded.Some? {
      assert cell.execs[step.exec].loaded.value.status != Queued ==> cell.left;
    }
  }

  /** A runner's save never leaves the record `queued`. */
  lemma {:induction false} RunnerStepKeepsReplayInv(cfg: Config, now: Time, at: Time, cell: Cell, step: CellStep)
    requires ReplayInv(cell)
    requires step.DoLoad? || step.DoFirstSave? || step.DoResultSave? || step.DoEnd? || step.CancelLoad?
    ensures ReplayInv(CellAfter(cfg, now, at, cell, step))
    ensures var job := CellAfter(cfg, now, at, cell, step).job; job == cell.job || job.status != Queued
  {
    if step.DoFirstSave? {
      if step.exec in cell.execs && cell.execs[step.exec].loaded.Some? {
        assert cell.execs[step.exec].loaded.value.status != Queued ==> cell.left;
      }
    } else if step.DoResultSave? {
      ResultSaveKeepsReplayInv(cfg, now, at, cell, step);
    } else {
      LoadKeepsReplayInv(cfg, now, at, cell, step);
    }
  }

  lemma {:induction false} CancelSaveKeepsReplayInv(cell: Cell, c: nat)
    requires ReplayInv(cell)
    ensures ReplayInv(CancelSaveStep(cell, c))
  {
    if c in cell.cancels && cell.cancels[c].desired.Some? {
      var call := cell.cancels[c];
      if SaveJob(cell.job, call.loaded, call.desired.value).Some? {
        SaveStatus(cell.job, call.loaded, call.desired.value);
      }
    }
  }

  /** Of the queue transactions only an enqueue ever writes `queued`. */
  lemma {:induction false} QueueStepKeepsReplayInv(cfg: Config, now: Time, at: Time, cell: Cell, step: CellStep)
    requires ReplayInv(cell)
    requires step.DoClaim? || step.DoRenew? || step.DoFinalize? || step.DoReconcile? || step.DoShutdown?
             || step.DoDelete?
    ensures ReplayInv(CellAfter(cfg, now, at, cell, step))
  {
  }

  lemma {:induction false} EnqueueKeepsReplayInv(cfg: Config, now: Time, at: Time, cell: Cell, recovered: bool)
    requires ReplayInv(cell) && (!cell.left || EnqueueRefused(cell.job, at))
    ensures ReplayInv(CellAfter(cfg, now, at, cell, DoEnqueue(recovered)))
  {
  }

  /** A cancellation never asks for `queued`. */
  lemma {:induction false} AskKeepsReplayInv(cfg: Config, now: Time, at: Time, cell: Cell, step: CellStep)
    requires ReplayInv(cell) && step.CancelAsk?
    ensures ReplayInv(CellAfter(cfg, now, at, cell, step))
  {
  }

  lemma {:induction false} CellStepKeepsReplayInv(cfg: Config, now: Time, at: Time, cell: Cell, step: CellStep)
    requires ReplayInv(cell) && (step.DoEnqueue? ==> !cell.left || EnqueueRefused(cell.job, at))
    ensures ReplayInv(CellAfter(cfg, now, at, cell, step))
    ensures cell.left ==> CellAfter(cfg, now, at, cell, step).left
  {
    match step
    case CancelSave(c) => CancelSaveKeepsReplayInv(cell, c);
    case DoLoad(_) => RunnerStepKeepsReplayInv(cfg, now, at, cell, step);
    case DoFirstSave(_) => RunnerStepKeepsReplayInv(cfg, now, at, cell, step);
    case DoResultSave(_, _, _, _, _) => RunnerStepKeepsReplayInv(cfg, now, at, cell, step);
    case DoEnd(_) => RunnerStepKeepsReplayInv(cfg, now, at, cell, step);
    case CancelLoad(_, _) => RunnerStepKeepsReplayInv(cfg, now, at, cell, step);
    case DoEnqueue(recovered) => EnqueueKeepsReplayInv(cfg, now, at, cell, recovered);
    case CancelAsk(_, _, _, _) => AskKeepsReplayInv(cfg, now, at, cell, step);
    case _ => QueueStepKeepsReplayInv(cfg, now, at, cell, step);
  }

  ghost predicate AllReplayInv(s: State) {
    forall id | id in s.cells :: ReplayInv(s.cells[id])
  }

  lemma {:induction false} StepKeepsAllReplayInv(cfg: Config, s: State, step: Step)
    requires AllReplayInv(s) && FreshOnly(s, step)
    ensures AllReplayInv(After(cfg, s, step))
  {
    if step.On? && step.id in s.cells {
      CellStepKeepsReplayInv(cfg, s.now, step.at, s.cells[step.id], step.step);
    }
  }

  lemma {:induction false} RunKeepsReplayInv(cfg: Config, steps: seq<Step>)
    requires FreshRun(cfg, steps)
    ensures AllReplayInv(Execute(cfg, steps))
    decreases |steps|
  {
    if steps != [] {
      var n := |steps| - 1;
      Shorter(cfg, steps, n);
      RunKeepsReplayInv(cfg, steps[..n]);
      StepKeepsAllReplayInv(cfg, Execute(cfg, steps[..n]), steps[n]);
    }
  }

  lemma {:induction false} Shorter(cfg: Config, steps: seq<Step>, n: nat)
    requires n <= |steps|
    ensures FreshRun(cfg, steps) ==> FreshRun(cfg, steps[..n])
    ensures OnTimeRun(cfg, steps) ==> OnTimeRun(cfg, steps[..n])
    ensures forall id :: UndisturbedRun(cfg, steps, id) ==> UndisturbedRun(cfg, steps[..n], id)
    ensures DisciplinedRun(cfg, steps) ==> DisciplinedRun(cfg, steps[..n])
  {
    forall i | 0 <= i < n
      ensures steps[..n][..i] == steps[..i] && steps[..n][i] == steps[i]
    {
    }
  }

  lemma {:induction false} StepKeepsLeft(cfg: Config, s: State, step: Step, id: JobId)
    requires AllReplayInv(s) && FreshOnly(s, step) && id in s.cells
    ensures id in After(cfg, s, step).cells
    ensures ReplayInv(After(cfg, s, step).cells[id])
    ensures s.cells[id].left ==> After(cfg, s, step).cells[id].left
  {
    if step.On? && step.id == id {
      CellStepKeepsReplayInv(cfg, s.now, step.at, s.cells[id], step.step);
    }
  }

  ghost predicate LeftStays(s: State, s': State) {
    forall id | id in s.cells :: id in s'.cells && (s.cells[id].left ==> s'.cells[id].left)
  }

  lemma {:induction false} LeftStaysOn(s: State, s': State, s'': State)
    requires LeftStays(s, s') && LeftStays(s', s'')
    ensures LeftStays(s, s'')
  {
  }

  lemma {:induction false} StepLeftStays(cfg: Config, s: State, step: Step)
    requires AllReplayInv(s) && FreshOnly(s, step)
    ensures LeftStays(s, After(cfg, s, step))
  {
    forall id | id in s.cells
      ensures id in After(cfg, s, step).cells && (s.cells[id].left ==> After(cfg, s, step).cells[id].left)
    {
      StepKeepsLeft(cfg, s, step, id);
    }
  }

  lemma {:induction false} LastStep(cfg: Config, steps: seq<Step>)
    requires steps != [] && FreshRun(cfg, steps)
    ensures FreshRun(cfg, steps[..|steps| - 1])
    ensures LeftStays(Execute(cfg, steps[..|steps| - 1]), Execute(cfg, steps))
  {
    var n := |steps| - 1;
    Shorter(cfg, steps, n);
    RunKeepsReplayInv(cfg, steps[..n]);
    assert FreshOnly(Execute(cfg, steps[..n]), steps[n]);
    StepLeftStays(cfg, Execute(cfg, steps[..n]), steps[n]);
  }

  lemma {:induction false} LeftForGood(cfg: Config, steps: seq<Step>, i: nat)
    requires FreshRun(cfg, steps) && i <= |steps|
    ensures LeftStays(Execute(cfg, steps[..i]), Execute(cfg, steps))
    decreases |steps|
  {
    if i == |steps| {
      assert steps[..i] == steps;
    } else {
      var before := steps[..|steps| - 1];
      assert before[..i] == steps[..i];
      LastStep(cfg, steps);
      LeftForGood(cfg, before, i);
      LeftStaysOn(Execute(cfg, steps[..i]), Execute(cfg, before), Execute(cfg, steps));
    }
  }

  /** No replay: a job whose status has left `queued` never returns to it, and at most one save of the
    * whole run moves it from `queued` to `generating`. No timing hypothesis is needed. */
  lemma {:induction false} NoReplay(cfg: Config, steps: seq<Step>, i: nat, id: JobId)
    requires FreshRun(cfg, steps) && i <= |steps|
    requires id in Execute(cfg, steps[..i]).cells
    ensures id in Execute(cfg, steps).cells
    ensures Execute(cfg, steps[..i]).cells[id].job.status != Queued ==>
              Execute(cfg, steps).cells[id].job.status != Queued
    ensures Execute(cfg, steps).cells[id].starts <= 1
  {
    Shorter(cfg, steps, i);
    RunKeepsReplayInv(cfg, steps[..i]);
    RunKeepsReplayInv(cfg, steps);
    LeftForGood(cfg, steps, i);
  }

  /** The boundary of that result: a job that has left `queued` is put back exactly by an enqueue of an
    * active record whose lease has run out. */
  lemma {:induction false} CellReplaysExactly(cfg: Config, now: Time, at: Time, cell: Cell, step: CellStep)
    requires ReplayInv(cell) && cell.left
    ensures CellAfter(cfg, now, at, cell, step).job.status == Queued
            <==> step.DoEnqueue? && !EnqueueRefused(cell.job, at)
  {
    if step.DoEnqueue? {
      StatusIsActiveOrTerminal(cell.job.status);
    } else {
      CellStepKeepsReplayInv(cfg, now, at, cell, step);
    }
  }

  /** Over runs: the first step that could break `FreshRun` by an enqueue is the step that replays. */
  lemma {:induction false} ReplaysExactly(cfg: Config, steps: seq<Step>, n: nat, id: JobId)
    requires n < |steps| && FreshRun(cfg, steps[..n])
    requires id in Execute(cfg, steps[..n]).cells && Execute(cfg, steps[..n]).cells[id].job.status != Queued
    ensures id in Execute(cfg, steps[..n + 1]).cells
    ensures var cell, step := Execute(cfg, steps[..n]).cells[id], steps[n];
            Execute(cfg, steps[..n + 1]).cells[id].job.status == Queued
            <==> step.On? && step.id == id && step.step.DoEnqueue? && !EnqueueRefused(cell.job, step.at)
  {
    var s, step := Execute(cfg, steps[..n]), steps[n];
    assert steps[..n + 1][..n] == steps[..n];
    RunKeepsReplayInv(cfg, steps[..n]);
    if step.On? && step.id == id {
      CellReplaysExactly(cfg, s.now, step.at, s.cells[id], step.step);
    }
  }
}
