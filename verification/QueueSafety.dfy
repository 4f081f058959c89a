/** Safety of whole queue runs: disjoint executors and what happens to terminal statuses. */
module QueueSafety {
  import opened Wrappers
  import opened QueueRecord
  import opened QueueRuns

  // ---------- disjoint executors ----------

  ghost predicate HeldBy(cfg: Config, job: Job, exec: Exec) {
    && job.runtime.queueState == Running
    && job.runtime.owner == Some(exec.who)
    && job.runtime.leaseExpiresAt.Some?
    && job.runtime.leaseExpiresAt.value >= exec.beatAt + cfg.leaseMs
  }

  /** Executions of one job belong to one runtime; until the status leaves `queued` the record says so
    * with a lease that covers the next beat, and no beat is overdue. */
  ghost predicate ExecInv(cfg: Config, now: Time, cell: Cell) {
    && (forall e | e in cell.execs ::
          && cell.execs[e].beatAt <= now
          && (cell.job.status == Queued ==>
                && now <= cell.execs[e].beatAt + cfg.heartbeatMs + cfg.delayMs
                && HeldBy(cfg, cell.job, cell.execs[e])))
    && (forall d, e | d in cell.execs && e in cell.execs :: cell.execs[d].who == cell.execs[e].who)
  }

  /** A lease set at a beat that is not overdue is still valid for every admissible clock reading. */
  lemma {:induction false} BeatCoversReadings(cfg: Config, now: Time, at: Time, cell: Cell, e: nat)
    requires Timely(cfg) && ExecInv(cfg, now, cell) && e in cell.execs && at <= now + cfg.clockErrorMs
    requires cell.job.status == Queued
    ensures LeaseValid(cell.job.runtime, at)
  {
  }

  lemma {:induction false} ClaimKeepsExecInv(cfg: Config, now: Time, at: Time, cell: Cell, e: nat, me: Identity)
    requires Timely(cfg) && ExecInv(cfg, now, cell) && now <= at <= now + cfg.clockErrorMs
    ensures ExecInv(cfg, now, CellAfter(cfg, now, at, cell, DoClaim(e, me)))
  {
    if Claim(cell.job, me, at, cfg.leaseMs).Some? {
      forall d | d in cell.execs
        ensures cell.execs[d].who == me
      {
        BeatCoversReadings(cfg, now, at, cell, d);
      }
    }
  }

  lemma {:induction false} RunnerKeepsExecInv(cfg: Config, now: Time, at: Time, cell: Cell, step: CellStep)
    requires ReplayInv(cell) && ExecInv(cfg, now, cell)
    requires step.DoLoad? || step.DoEnd? || step.CancelLoad? || step.DoResultSave?
    ensures ExecInv(cfg, now, CellAfter(cfg, now, at, cell, step))
  {
    RunnerStepKeepsReplayInv(cfg, now, at, cell, step);
  }

  lemma {:induction false} FirstSaveKeepsExecInv(cfg: Config, now: Time, at: Time, cell: Cell, e: nat)
    requires ReplayInv(cell) && ExecInv(cfg, now, cell)
    ensures ExecInv(cfg, now, CellAfter(cfg, now, at, cell, DoFirstSave(e)))
  {
    RunnerStepKeepsReplayInv(cfg, now, at, cell, DoFirstSave(e));
  }

  lemma {:induction false} CancelSaveKeepsExecInv(cfg: Config, now: Time, at: Time, cell: Cell, c: nat)
    requires ReplayInv(cell) && ExecInv(cfg, now, cell)
    ensures ExecInv(cfg, now, CellAfter(cfg, now, at, cell, CancelSave(c)))
  {
    if c in cell.cancels && cell.cancels[c].desired.Some? {
      var call := cell.cancels[c];
      if SaveJob(cell.job, call.loaded, call.desired.value).Some? {
        SaveStatus(cell.job, call.loaded, call.desired.value);
        assert call.loaded.status != Queued ==> cell.left;
      }
    }
  }

  /** Transactions of the owner, or refused because the job is held. */
  lemma {:induction false} QueueStepKeepsExecInv(cfg: Config, now: Time, at: Time, cell: Cell, step: CellStep)
    requires Timely(cfg) && ReplayInv(cell) && ExecInv(cfg, now, cell) && now <= at <= now + cfg.clockErrorMs
    requires step.DoRenew? || step.DoFinalize? || step.DoEnqueue? || step.DoReconcile? || step.DoDelete?
    requires step.DoEnqueue? ==> !cell.left || EnqueueRefused(cell.job, at)
    ensures ExecInv(cfg, now, CellAfter(cfg, now, at, cell, step))
  {
    if cell.job.status == Queued {
      forall e | e in cell.execs ensures LeaseValid(cell.job.runtime, at) {
        BeatCoversReadings(cfg, now, at, cell, e);
      }
    }
  }

  lemma {:induction false} RequestKeepsExecInv(cfg: Config, now: Time, at: Time, cell: Cell, step: CellStep)
    requires ReplayInv(cell) && ExecInv(cfg, now, cell)
    requires step.DoShutdown? || step.CancelAsk?
    requires !CancelsEarly(cell, step) && (ShutsDownExecutor(cell, step) ==> cell.job.status != Queued)
    ensures ExecInv(cfg, now, CellAfter(cfg, now, at, cell, step))
  {
  }

  lemma {:induction false} CellStepKeepsExecInv(cfg: Config, now: Time, at: Time, cell: Cell, step: CellStep)
    requires Timely(cfg) && ReplayInv(cell) && ExecInv(cfg, now, cell) && now <= at <= now + cfg.clockErrorMs
    requires step.DoEnqueue? ==> !cell.left || EnqueueRefused(cell.job, at)
    requires !CancelsEarly(cell, step) && (ShutsDownExecutor(cell, step) ==> cell.job.status != Queued)
    ensures ExecInv(cfg, now, CellAfter(cfg, now, at, cell, step))
  {
    match step
    case DoClaim(e, me) => ClaimKeepsExecInv(cfg, now, at, cell, e, me);
    case CancelSave(c) => CancelSaveKeepsExecInv(cfg, now, at, cell, c);
    case DoLoad(_) => RunnerKeepsExecInv(cfg, now, at, cell, step);
    case DoFirstSave(e) => FirstSaveKeepsExecInv(cfg, now, at, cell, e);
    case DoResultSave(_, _, _, _, _) => RunnerKeepsExecInv(cfg, now, at, cell, step);
    case DoEnd(_) => RunnerKeepsExecInv(cfg, now, at, cell, step);
    case CancelLoad(_, _) => RunnerKeepsExecInv(cfg, now, at, cell, step);
    case DoShutdown(_) => RequestKeepsExecInv(cfg, now, at, cell, step);
    case CancelAsk(_, _, _, _) => RequestKeepsExecInv(cfg, now, at, cell, step);
    case _ => QueueStepKeepsExecInv(cfg, now, at, cell, step);
  }

  lemma {:induction false} StepKeepsExecInv(cfg: Config, s: State, step: Step, id: JobId)
    requires Timely(cfg) && AllReplayInv(s) && FreshOnly(s, step) && OnTime(cfg, s, step) && !Interferes(s, step, id)
    requires id in s.cells ==> ExecInv(cfg, s.now, s.cells[id])
    ensures id in After(cfg, s, step).cells ==>
              ExecInv(cfg, After(cfg, s, step).now, After(cfg, s, step).cells[id])
  {
    if step.On? && step.id == id && id in s.cells {
      CellStepKeepsExecInv(cfg, s.now, step.at, s.cells[id], step.step);
    }
  }

  /** A job that nobody interferes with, whatever happens to the other jobs. */
  lemma {:induction false} RunKeepsExecInv(cfg: Config, steps: seq<Step>, id: JobId)
    requires Timely(cfg) && FreshRun(cfg, steps) && OnTimeRun(cfg, steps) && UndisturbedRun(cfg, steps, id)
    ensures var s := Execute(cfg, steps); id in s.cells ==> ExecInv(cfg, s.now, s.cells[id])
    decreases |steps|
  {
    if steps != [] {
      var n := |steps| - 1;
      Shorter(cfg, steps, n);
      RunKeepsExecInv(cfg, steps[..n], id);
      RunKeepsReplayInv(cfg, steps[..n]);
      var s := Execute(cfg, steps[..n]);
      assert FreshOnly(s, steps[n]) && OnTime(cfg, s, steps[n]) && !Interferes(s, steps[n], id);
      StepKeepsExecInv(cfg, s, steps[n], id);
    }
  }

  lemma {:induction false} DisciplineParts(cfg: Config, steps: seq<Step>, id: JobId)
    requires DisciplinedRun(cfg, steps)
    ensures OnTimeRun(cfg, steps) && UndisturbedRun(cfg, steps, id)
  {
    forall i | 0 <= i < |steps|
      ensures OnTime(cfg, Execute(cfg, steps[..i]), steps[i]) && !Interferes(Execute(cfg, steps[..i]), steps[i], id)
    {
      assert Disciplined(cfg, Execute(cfg, steps[..i]), steps[i]);
    }
  }

  /** The executions in flight on a job belong to one runtime. */
  ghost predicate OneRuntime(cell: Cell) {
    forall d, e | d in cell.execs && e in cell.execs :: cell.execs[d].who == cell.execs[e].who
  }

  /** Disjoint executors: if beats commit in time for the clock error, no cancellation or shutdown commits
    * between a claim of the job and its runner's first save, and enqueueing is applied to fresh records
    * only, then the executions in flight on one job always belong to one runtime. */
  lemma {:induction false} DisjointExecutors(cfg: Config, steps: seq<Step>, id: JobId)
    requires Timely(cfg) && FreshRun(cfg, steps) && OnTimeRun(cfg, steps) && UndisturbedRun(cfg, steps, id)
    requires id in Execute(cfg, steps).cells
    ensures OneRuntime(Execute(cfg, steps).cells[id])
  {
    RunKeepsExecInv(cfg, steps, id);
  }

  /** A claim by another runtime than an executor's that the guards let through: the record is queued and
    * does not say that someone else holds it now. */
  predicate AdmitsSecond(at: Time, cell: Cell, step: CellStep) {
    && step.DoClaim? && step.exec !in cell.execs && (exists d | d in cell.execs :: cell.execs[d].who != step.me)
    && !cell.job.logicalDeleted && cell.job.status == Queued
    && !(cell.job.runtime.queueState in {Claimed, Running} && LeaseValid(cell.job.runtime, at)
         && !Owns(step.me, cell.job.runtime))
  }

  predicate AdmitsSecondTo(s: State, step: Step, id: JobId) {
    step.On? && step.id == id && id in s.cells && AdmitsSecond(step.at, s.cells[id], step.step)
  }

  /** The executions after a step: claims add one, and no other step changes whose they are. */
  lemma {:induction false} ExecsAfter(cfg: Config, now: Time, at: Time, cell: Cell, step: CellStep)
    ensures var execs := CellAfter(cfg, now, at, cell, step).execs;
            && (forall e | e in execs && e in cell.execs :: execs[e].who == cell.execs[e].who)
            && (!step.DoClaim? ==> execs.Keys <= cell.execs.Keys)
            && (step.DoEnd? ==> execs == cell.execs - {step.exec})
            && (step.DoClaim? ==> cell.execs.Keys <= execs.Keys <= cell.execs.Keys + {step.exec})
            && (step.DoClaim? && step.exec in execs && step.exec !in cell.execs ==> execs[step.exec].who == step.me)
            && (step.DoClaim? && step.exec !in cell.execs ==>
                  (step.exec in execs <==> Claim(cell.job, step.me, at, cfg.leaseMs).Some?))
  {
  }

  /** Exactly when a step puts a second runtime beside the executor of a job. */
  lemma {:induction false} CellAdmitsSecondExactly(cfg: Config, now: Time, at: Time, cell: Cell, step: CellStep)
    requires OneRuntime(cell)
    ensures OneRuntime(CellAfter(cfg, now, at, cell, step)) <==> !AdmitsSecond(at, cell, step)
  {
    ExecsAfter(cfg, now, at, cell, step);
    var execs := CellAfter(cfg, now, at, cell, step).execs;
    if AdmitsSecond(at, cell, step) {
      var d :| d in cell.execs && cell.execs[d].who != step.me;
      assert d in execs && step.exec in execs;
    }
  }

  lemma {:induction false} StepAdmitsSecondExactly(cfg: Config, s: State, step: Step, id: JobId)
    requires id in s.cells ==> OneRuntime(s.cells[id])
    ensures (id in After(cfg, s, step).cells ==> OneRuntime(After(cfg, s, step).cells[id]))
            <==> !AdmitsSecondTo(s, step, id)
  {
    if step.On? && step.id == id && id in s.cells {
      CellAdmitsSecondExactly(cfg, s.now, step.at, s.cells[id], step.step);
    }
  }

  ghost predicate OneRuntimeAt(cfg: Config, steps: seq<Step>, n: nat, id: JobId)
    requires n <= |steps|
  {
    id in Execute(cfg, steps[..n]).cells ==> OneRuntime(Execute(cfg, steps[..n]).cells[id])
  }

  predicate AdmitsSecondAt(cfg: Config, steps: seq<Step>, n: nat, id: JobId)
    requires n < |steps|
  {
    AdmitsSecondTo(Execute(cfg, steps[..n]), steps[n], id)
  }

  lemma {:induction false} NextAdmitsSecondExactly(cfg: Config, steps: seq<Step>, n: nat, id: JobId)
    requires n < |steps| && OneRuntimeAt(cfg, steps, n, id)
    ensures OneRuntimeAt(cfg, steps, n + 1, id) <==> !AdmitsSecondAt(cfg, steps, n, id)
  {
    assert steps[..n + 1][..n] == steps[..n];
    StepAdmitsSecondExactly(cfg, Execute(cfg, steps[..n]), steps[n], id);
  }

  ghost predicate AlwaysOneRuntime(cfg: Config, steps: seq<Step>, n: nat, id: JobId)
    requires n <= |steps|
  {
    forall i | 0 <= i <= n :: OneRuntimeAt(cfg, steps, i, id)
  }

  predicate NeverAdmitsSecond(cfg: Config, steps: seq<Step>, n: nat, id: JobId)
    requires n <= |steps|
  {
    forall i | 0 <= i < n :: !AdmitsSecondAt(cfg, steps, i, id)
  }

  /** The boundary over whole runs, with no hypothesis at all: the executions in flight on a job belong
    * to one runtime throughout the first `n` steps exactly when none of them admits a second. */
  lemma {:induction false} ExecutorsDisjointExactly(cfg: Config, steps: seq<Step>, n: nat, id: JobId)
    requires n <= |steps|
    ensures AlwaysOneRuntime(cfg, steps, n, id) <==> NeverAdmitsSecond(cfg, steps, n, id)
    decreases n
  {
    if n == 0 {
      assert Execute(cfg, steps[..0]).cells == map[];
    } else {
      ExecutorsDisjointExactly(cfg, steps, n - 1, id);
      assert AlwaysOneRuntime(cfg, steps, n, id)
        <==> AlwaysOneRuntime(cfg, steps, n - 1, id) && OneRuntimeAt(cfg, steps, n, id);
      assert NeverAdmitsSecond(cfg, steps, n, id)
        <==> NeverAdmitsSecond(cfg, steps, n - 1, id) && !AdmitsSecondAt(cfg, steps, n - 1, id);
      if AlwaysOneRuntime(cfg, steps, n - 1, id) {
        NextAdmitsSecondExactly(cfg, steps, n - 1, id);
      }
    }
  }

  /** And with timely clocks and no replay, only a cancellation or a shutdown between a claim of this very
    * job and the runner's first save opens the window. */
  lemma {:induction false} OnlyInterferenceAdmitsSecond(cfg: Config, steps: seq<Step>, id: JobId) returns (n: nat)
    requires Timely(cfg) && FreshRun(cfg, steps) && OnTimeRun(cfg, steps)
    requires id in Execute(cfg, steps).cells && !OneRuntime(Execute(cfg, steps).cells[id])
    ensures n < |steps| && Interferes(Execute(cfg, steps[..n]), steps[n], id)
  {
    if UndisturbedRun(cfg, steps, id) {
      DisjointExecutors(cfg, steps, id);
      assert false;
    }
    n :| n < |steps| && Interferes(Execute(cfg, steps[..n]), steps[n], id);
  }

  /** While a claimed job has not left `queued`, its executor owns it under a lease that is valid for
    * every admissible clock reading. */
  lemma {:induction false} ClaimIsCovered(cfg: Config, steps: seq<Step>, id: JobId, e: nat, at: Time)
    requires Timely(cfg) && FreshRun(cfg, steps) && OnTimeRun(cfg, steps) && UndisturbedRun(cfg, steps, id)
    requires var s := Execute(cfg, steps);
             id in s.cells && e in s.cells[id].execs && s.cells[id].job.status == Queued
             && at <= s.now + cfg.clockErrorMs
    ensures var cell := Execute(cfg, steps).cells[id];
            cell.job.runtime.owner == Some(cell.execs[e].who) && LeaseValid(cell.job.runtime, at)
  {
    RunKeepsExecInv(cfg, steps, id);
    var s := Execute(cfg, steps);
    BeatCoversReadings(cfg, s.now, at, s.cells[id], e);
  }

  /** The cancellation hypothesis is needed: on any fresh job, with both clocks exact and no time passing,
    * a cancellation of a claimed job that is still `queued` lets a second runtime claim it. */
  lemma {:induction false} EarlyCancelAdmitsSecondExecutor(cfg: Config, job: Job, first: Identity, second: Identity)
    requires Fresh(job) && first != second && cfg.leaseMs > 0
    ensures var claimed := CellAfter(cfg, 0, 0, NewCell(job), DoClaim(1, first));
            var loaded := CellAfter(cfg, 0, 0, claimed, CancelLoad(1, true));
            var asked := CellAfter(cfg, 0, 0, loaded, CancelAsk(1, false, false, 0));
            var twice := CellAfter(cfg, 0, 0, asked, DoClaim(2, second));
            && 1 in twice.execs && twice.execs[1].who == first
            && 2 in twice.execs && twice.execs[2].who == second
  {
  }

  /** So is the shutdown hypothesis: a runtime that gives up its lease before its runner's first save
    * leaves the job to the next recovery and claim, while the runner is still there. */
  lemma {:induction false} EarlyShutdownAdmitsSecondExecutor(cfg: Config, job: Job, first: Identity, second: Identity)
    requires Fresh(job) && first != second && cfg.leaseMs > 0
    ensures var claimed := CellAfter(cfg, 0, 0, NewCell(job), DoClaim(1, first));
            var closed := CellAfter(cfg, 0, 0, claimed, DoShutdown(first));
            var recovered := CellAfter(cfg, 0, 0, closed, DoReconcile(second));
            var twice := CellAfter(cfg, 0, 0, recovered, DoClaim(2, second));
            && recovered.job.runtime.owner == None
            && 1 in twice.execs && twice.execs[1].who == first
            && 2 in twice.execs && twice.execs[2].who == second
  {
  }

  // ---------- terminal statuses ----------

  /** Exactly when a committed save replaces a terminal status: its object had loaded that very status
    * and carries another one. */
  lemma {:induction false} SaveReplacesTerminalExactly(current: Job, baseline: Job, desired: Job)
    requires Terminal(current.status) && SaveJob(current, baseline, desired).Some?
    ensures SaveJob(current, baseline, desired).value.status != current.status
            <==> baseline.status == current.status && desired.status != baseline.status
  {
    SaveStatus(current, baseline, desired);
  }

  /** A runner save that commits from an object that had loaded the stored status and carries another. */
  predicate Overwrites(at: Time, cell: Cell, step: CellStep) {
    && (step.DoFirstSave? || step.DoResultSave?)
    && step.exec in cell.execs && cell.execs[step.exec].loaded.Some?
    && var loaded := cell.execs[step.exec].loaded.value;
       && loaded.status == cell.job.status
       && if step.DoFirstSave? then
            !cell.execs[step.exec].started && SaveJob(cell.job, loaded, StartDesired(loaded, at)).Some?
          else
            && cell.execs[step.exec].started && Terminal(step.status) && step.status != loaded.status
            && SaveJob(cell.job, loaded,
                       ResultDesired(loaded, at, step.status, step.outputs, step.summary, step.error)).Some?
  }

  /** Cancellations load only records that are not terminal. */
  ghost predicate CancelsActive(cell: Cell) {
    forall c | c in cell.cancels :: Active(cell.cancels[c].loaded.status)
  }

  lemma {:induction false} CellStepKeepsCancelsActive(cfg: Config, now: Time, at: Time, cell: Cell, step: CellStep)
    requires CancelsActive(cell)
    ensures CancelsActive(CellAfter(cfg, now, at, cell, step))
  {
    StatusIsActiveOrTerminal(cell.job.status);
  }

  lemma {:induction false} RunnerSaveMovesTerminal(cfg: Config, now: Time, at: Time, cell: Cell, step: CellStep)
    requires Terminal(cell.job.status) && (step.DoFirstSave? || step.DoResultSave?)
    ensures CellAfter(cfg, now, at, cell, step).job.status != cell.job.status <==> Overwrites(at, cell, step)
    ensures step.DoResultSave? ==> Terminal(CellAfter(cfg, now, at, cell, step).job.status)
  {
    StatusIsActiveOrTerminal(cell.job.status);
    if step.exec in cell.execs && cell.execs[step.exec].loaded.Some? {
      var loaded := cell.execs[step.exec].loaded.value;
      var desired := if step.DoFirstSave? then StartDesired(loaded, at)
                     else ResultDesired(loaded, at, step.status, step.outputs, step.summary, step.error);
      if SaveJob(cell.job, loaded, desired).Some? {
        SaveReplacesTerminalExactly(cell.job, loaded, desired);
      }
    }
  }

  lemma {:induction false} CancelSaveKeepsTerminal(cell: Cell, c: nat)
    requires CancelsActive(cell) && Terminal(cell.job.status)
    ensures CancelSaveStep(cell, c).job.status == cell.job.status
  {
    if c in cell.cancels && cell.cancels[c].desired.Some? {
      var call := cell.cancels[c];
      StatusIsActiveOrTerminal(call.loaded.status);
      if SaveJob(cell.job, call.loaded, call.desired.value).Some? {
        SaveReplacesTerminalExactly(cell.job, call.loaded, call.desired.value);
      }
    }
  }

  lemma {:induction false} CellMovesTerminalExactly(cfg: Config, now: Time, at: Time, cell: Cell, step: CellStep)
    requires CancelsActive(cell) && Terminal(cell.job.status)
    ensures CellAfter(cfg, now, at, cell, step).job.status != cell.job.status <==> Overwrites(at, cell, step)
  {
    StatusIsActiveOrTerminal(cell.job.status);
    match step
    case DoFirstSave(_) => RunnerSaveMovesTerminal(cfg, now, at, cell, step);
    case DoResultSave(_, _, _, _, _) => RunnerSaveMovesTerminal(cfg, now, at, cell, step);
    case CancelSave(c) => CancelSaveKeepsTerminal(cell, c);
    case _ =>
  }

  ghost predicate AllCancelsActive(s: State) {
    forall id | id in s.cells :: CancelsActive(s.cells[id])
  }

  lemma {:induction false} RunKeepsCancelsActive(cfg: Config, steps: seq<Step>)
    ensures AllCancelsActive(Execute(cfg, steps))
    decreases |steps|
  {
    if steps != [] {
      var n := |steps| - 1;
      RunKeepsCancelsActive(cfg, steps[..n]);
      var s, step := Execute(cfg, steps[..n]), steps[n];
      if step.On? && step.id in s.cells {
        CellStepKeepsCancelsActive(cfg, s.now, step.at, s.cells[step.id], step.step);
      }
    }
  }

  /** The step overwrites the status of this job. */
  predicate OverwritesJob(s: State, step: Step, id: JobId) {
    step.On? && step.id == id && id in s.cells && Overwrites(step.at, s.cells[id], step.step)
  }

  /** In any run at all, a step changes a terminal status exactly when it is a runner save from an object
    * that had loaded that status: no queue transaction and no cancellation ever does. */
  lemma {:induction false} TerminalMovesExactly(cfg: Config, steps: seq<Step>, n: nat, id: JobId)
    requires n < |steps|
    requires id in Execute(cfg, steps[..n]).cells && Terminal(Execute(cfg, steps[..n]).cells[id].job.status)
    ensures id in Execute(cfg, steps[..n + 1]).cells
    ensures Execute(cfg, steps[..n + 1]).cells[id].job.status != Execute(cfg, steps[..n]).cells[id].job.status
            <==> OverwritesJob(Execute(cfg, steps[..n]), steps[n], id)
  {
    var s, step := Execute(cfg, steps[..n]), steps[n];
    assert steps[..n + 1][..n] == steps[..n];
    RunKeepsCancelsActive(cfg, steps[..n]);
    if step.On? && step.id == id {
      CellMovesTerminalExactly(cfg, s.now, step.at, s.cells[id], step.step);
    }
  }

  /** So a terminal status is absorbing over every run without such a save. */
  lemma {:induction false} TerminalIsAbsorbing(cfg: Config, steps: seq<Step>, i: nat, id: JobId)
    requires i <= |steps| && id in Execute(cfg, steps[..i]).cells
    requires Terminal(Execute(cfg, steps[..i]).cells[id].job.status)
    requires forall n | i <= n < |steps| :: !OverwritesJob(Execute(cfg, steps[..n]), steps[n], id)
    ensures id in Execute(cfg, steps).cells
    ensures Execute(cfg, steps).cells[id].job.status == Execute(cfg, steps[..i]).cells[id].job.status
    decreases |steps|
  {
    if i == |steps| {
      assert steps[..i] == steps;
    } else {
      var n := |steps| - 1;
      assert steps[..n][..i] == steps[..i] && steps[..n + 1] == steps;
      forall j | i <= j < n
        ensures !OverwritesJob(Execute(cfg, steps[..n][..j]), steps[..n][j], id)
      {
        assert steps[..n][..j] == steps[..j];
      }
      TerminalIsAbsorbing(cfg, steps[..n], i, id);
      TerminalMovesExactly(cfg, steps, n, id);
    }
  }

  /** A fresh job, claimed, loaded and started by one runtime at one time. */
  function Started(cfg: Config, job: Job, me: Identity): Cell {
    var claimed := CellAfter(cfg, 0, 0, NewCell(job), DoClaim(1, me));
    var loaded := CellAfter(cfg, 0, 0, claimed, DoLoad(1));
    CellAfter(cfg, 0, 0, loaded, DoFirstSave(1))
  }

  lemma {:induction false} StartedShape(cfg: Config, job: Job, me: Identity)
    requires Fresh(job)
    ensures var cell := Started(cfg, job, me);
            && cell.job.status == Generating && !cell.job.logicalDeleted
            && 1 in cell.execs && cell.execs[1].started && cell.execs[1].loaded == Some(cell.job)
  {
  }

  /** A save from what is stored commits. */
  lemma {:induction false} OwnSaveCommits(job: Job, desired: Job)
    requires !job.logicalDeleted && !desired.logicalDeleted
    ensures SaveJob(job, job, desired) == Some(desired)
  {
  }

  /** The save is real: a runner whose result was stored as completed and that then fails stores `failed`
    * over it. This happens on any fresh job, with exact clocks and nobody else around. */
  lemma {:induction false} FailureReplacesCompletion(cfg: Config, job: Job, me: Identity, outputs: nat, error: JobError)
    requires Fresh(job)
    ensures var done := CellAfter(cfg, 0, 0, Started(cfg, job, me), DoResultSave(1, Completed, outputs, "done", None));
            var failing := DoResultSave(1, Failed, outputs, "failed", Some(error));
            && done.job.status == Completed && Overwrites(0, done, failing)
            && CellAfter(cfg, 0, 0, done, failing).job.status == Failed
  {
    var cell := Started(cfg, job, me);
    StartedShape(cfg, job, me);
    OwnSaveCommits(cell.job, ResultDesired(cell.job, 0, Completed, outputs, "done", None));
    var done := CellAfter(cfg, 0, 0, cell, DoResultSave(1, Completed, outputs, "done", None));
    OwnSaveCommits(done.job, ResultDesired(done.job, 0, Failed, outputs, "failed", Some(error)));
  }

  // ---------- runs whose runners load active records ----------

  /** A runner loads a record whose status is not terminal. */
  predicate LoadsActive(cell: Cell, step: CellStep) {
    step.DoLoad? && step.exec in cell.execs && cell.execs[step.exec].loaded.None? ==> Active(cell.job.status)
  }

  ghost predicate ActiveLoads(cell: Cell) {
    && CancelsActive(cell)
    && (forall e | e in cell.execs && cell.execs[e].loaded.Some? && !cell.execs[e].started ::
          Active(cell.execs[e].loaded.value.status))
  }

  lemma {:induction false} CellStepKeepsActiveLoads(cfg: Config, now: Time, at: Time, cell: Cell, step: CellStep)
    requires ActiveLoads(cell) && LoadsActive(cell, step)
    ensures ActiveLoads(CellAfter(cfg, now, at, cell, step))
  {
    CellStepKeepsCancelsActive(cfg, now, at, cell, step);
  }

  /** Then a terminal status may be replaced by another one, but no step leaves the terminal statuses. */
  lemma {:induction false} CellStepStaysTerminal(cfg: Config, now: Time, at: Time, cell: Cell, step: CellStep)
    requires ActiveLoads(cell) && Terminal(cell.job.status)
    ensures Terminal(CellAfter(cfg, now, at, cell, step).job.status)
  {
    StatusIsActiveOrTerminal(cell.job.status);
    if step.DoResultSave? {
      RunnerSaveMovesTerminal(cfg, now, at, cell, step);
    } else {
      CellMovesTerminalExactly(cfg, now, at, cell, step);
      if step.DoFirstSave? && Overwrites(at, cell, step) {
        StatusIsActiveOrTerminal(cell.execs[step.exec].loaded.value.status);
        assert false;
      }
    }
  }

  /** Both facts about statuses that the invariants need. */
  lemma {:induction false} CellStepKeepsStatuses(cfg: Config, now: Time, at: Time, cell: Cell, step: CellStep)
    requires ActiveLoads(cell) && LoadsActive(cell, step)
    ensures ActiveLoads(CellAfter(cfg, now, at, cell, step))
    ensures Terminal(cell.job.status) ==> Terminal(CellAfter(cfg, now, at, cell, step).job.status)
  {
    CellStepKeepsActiveLoads(cfg, now, at, cell, step);
    if Terminal(cell.job.status) {
      CellStepStaysTerminal(cfg, now, at, cell, step);
    }
  }

  ghost predicate ActiveLoadsRun(cfg: Config, steps: seq<Step>) {
    forall i | 0 <= i < |steps| && steps[i].On? && steps[i].id in Execute(cfg, steps[..i]).cells ::
      LoadsActive(Execute(cfg, steps[..i]).cells[steps[i].id], steps[i].step)
  }

  ghost predicate AllActiveLoads(s: State) {
    forall id | id in s.cells :: ActiveLoads(s.cells[id])
  }

  lemma {:induction false} ShorterActive(cfg: Config, steps: seq<Step>, n: nat)
    requires n <= |steps| && ActiveLoadsRun(cfg, steps)
    ensures ActiveLoadsRun(cfg, steps[..n])
  {
    forall i | 0 <= i < n
      ensures steps[..n][..i] == steps[..i] && steps[..n][i] == steps[i]
    {
    }
  }

  lemma {:induction false} RunKeepsActiveLoads(cfg: Config, steps: seq<Step>)
    requires ActiveLoadsRun(cfg, steps)
    ensures AllActiveLoads(Execute(cfg, steps))
    decreases |steps|
  {
    if steps != [] {
      var n := |steps| - 1;
      ShorterActive(cfg, steps, n);
      RunKeepsActiveLoads(cfg, steps[..n]);
      var s, step := Execute(cfg, steps[..n]), steps[n];
      if step.On? && step.id in s.cells {
        CellStepKeepsActiveLoads(cfg, s.now, step.at, s.cells[step.id], step.step);
      }
    }
  }
}
