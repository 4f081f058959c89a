/** An execution keeps its lease until its job is terminal, whatever cancellations load, ask and save
  * meanwhile. */
module QueueLeases {
  import opened Wrappers
  import opened QueueRecord
  import opened QueueRuns
  import opened QueueSafety

  // ---------- an executor holds its lease ----------

  ghost predicate LeaseInv(cfg: Config, now: Time, cell: Cell) {
    forall e | e in cell.execs ::
      && cell.job.runtime.owner == Some(cell.execs[e].who)
      && cell.execs[e].beatAt <= now
      && (Active(cell.job.status) ==>
            && now <= cell.execs[e].beatAt + cfg.heartbeatMs + cfg.delayMs
            && cell.job.runtime.queueState in {Running, Stopping}
            && cell.job.runtime.leaseExpiresAt.Some?
            && cell.job.runtime.leaseExpiresAt.value >= cell.execs[e].beatAt + cfg.leaseMs)
  }

  /** Beats of every execution of an active job are on time. */
  ghost predicate BeatsOnTime(cfg: Config, s: State, step: Step) {
    step.Tick? ==> forall id, e | id in s.cells && e in s.cells[id].execs && Active(s.cells[id].job.status) ::
      s.now + step.milliseconds <= s.cells[id].execs[e].beatAt + cfg.heartbeatMs + cfg.delayMs
  }

  lemma {:induction false} HeldWhileExecuting(cfg: Config, now: Time, at: Time, cell: Cell, e: nat)
    requires Timely(cfg) && LeaseInv(cfg, now, cell) && e in cell.execs && at <= now + cfg.clockErrorMs
    requires Active(cell.job.status)
    ensures Held(cell.job.runtime, at)
  {
  }

  // Two leases of one runtime never end at the same time when its readings grow; a pending cancellation
  // is recognised by the lease it has loaded.

  /** Every lease in sight was set at a reading its owner has stored. */
  ghost predicate Bounded(cfg: Config, stamp: map<Identity, Time>, runtime: Runtime) {
    runtime.owner.Some? && runtime.leaseExpiresAt.Some? ==>
      && runtime.owner.value in stamp
      && runtime.leaseExpiresAt.value <= stamp[runtime.owner.value] + cfg.leaseMs
  }

  /** The lease block a cancellation will save is harmless while the lease it has loaded is still there:
    * it has the same owner and the same lease. Once the lease is gone under an execution, the record no
    * longer has the heartbeat that was loaded. */
  ghost predicate CancelInv(job: Job, call: CancelCall) {
    var current, loaded := job.runtime, call.loaded.runtime;
    current.owner.Some? && current.owner == loaded.owner ==>
      if current.leaseExpiresAt.Some? then
        call.desired.Some? && current.leaseExpiresAt == loaded.leaseExpiresAt ==>
          var desired := call.desired.value.runtime;
          && desired.owner == current.owner && desired.leaseExpiresAt == current.leaseExpiresAt
          && (Active(job.status) ==> desired.queueState in {Running, Stopping})
      else current.heartbeatAt != loaded.heartbeatAt
  }

  ghost predicate StampInv(cfg: Config, cell: Cell) {
    && Bounded(cfg, cell.stamp, cell.job.runtime)
    && forall c | c in cell.cancels ::
         && Bounded(cfg, cell.stamp, cell.cancels[c].loaded.runtime)
         && (cell.cancels[c].desired.Some? ==> Bounded(cfg, cell.stamp, cell.cancels[c].desired.value.runtime))
         && (cell.execs != map[] ==> CancelInv(cell.job, cell.cancels[c]))
  }

  /** A runtime's readings grow from one claim or renewal to the next, the executor is not shut down, and
    * if a runtime finalizes while it executes the job a second time, it does not read the very heartbeat
    * that a pending cancellation has loaded. */
  ghost predicate ClockStep(at: Time, cell: Cell, step: CellStep) {
    && (step.DoClaim? && step.me in cell.stamp ==> at > cell.stamp[step.me])
    && (step.DoRenew? && step.exec in cell.execs && cell.execs[step.exec].who in cell.stamp ==>
          at > cell.stamp[cell.execs[step.exec].who])
    && !ShutsDownExecutor(cell, step)
    && (step.DoFinalize? && cell.execs != map[] ==>
          forall c | c in cell.cancels :: cell.cancels[c].loaded.runtime.heartbeatAt != Some(at))
  }

  ghost predicate LeaseStampInv(cfg: Config, now: Time, cell: Cell) {
    LeaseInv(cfg, now, cell) && StampInv(cfg, cell)
  }

  lemma {:induction false} StampGrows(stamp: map<Identity, Time>, me: Identity, at: Time)
    ensures var stamp' := Stamped(stamp, me, at);
            && me in stamp' && at <= stamp'[me]
            && forall o | o in stamp :: o in stamp' && stamp[o] <= stamp'[o]
  {
  }

  lemma {:induction false} BoundedLater(cfg: Config, stamp: map<Identity, Time>, me: Identity, at: Time,
                                        runtime: Runtime)
    requires Bounded(cfg, stamp, runtime)
    ensures Bounded(cfg, Stamped(stamp, me, at), runtime)
  {
    StampGrows(stamp, me, at);
  }

  /** A new lease, set at a reading later than all its owner has stored, is unlike every loaded one. */
  lemma {:induction false} NewLease(cfg: Config, cell: Cell, job: Job, me: Identity, at: Time, execs: map<nat, Exec>)
    requires StampInv(cfg, cell) && (me in cell.stamp ==> at > cell.stamp[me])
    requires job.runtime.owner == Some(me) && job.runtime.leaseExpiresAt == Some(at + cfg.leaseMs)
    ensures StampInv(cfg, WithJob(cell, job).(execs := execs, stamp := Stamped(cell.stamp, me, at)))
  {
    StampGrows(cell.stamp, me, at);
    forall c | c in cell.cancels
      ensures Bounded(cfg, Stamped(cell.stamp, me, at), cell.cancels[c].loaded.runtime)
      ensures CancelInv(job, cell.cancels[c])
    {
      BoundedLater(cfg, cell.stamp, me, at, cell.cancels[c].loaded.runtime);
      assert Bounded(cfg, cell.stamp, cell.cancels[c].loaded.runtime);
    }
    forall c | c in cell.cancels && cell.cancels[c].desired.Some?
      ensures Bounded(cfg, Stamped(cell.stamp, me, at), cell.cancels[c].desired.value.runtime)
    {
      BoundedLater(cfg, cell.stamp, me, at, cell.cancels[c].desired.value.runtime);
    }
  }

  lemma {:induction false} ClaimKeepsLease(cfg: Config, now: Time, at: Time, cell: Cell, e: nat, me: Identity)
    requires Timely(cfg) && ExecInv(cfg, now, cell) && LeaseStampInv(cfg, now, cell)
             && now <= at <= now + cfg.clockErrorMs
    requires ClockStep(at, cell, DoClaim(e, me))
    ensures LeaseStampInv(cfg, now, ClaimStep(cfg, now, at, cell, e, me))
  {
    var r := Claim(cell.job, me, at, cfg.leaseMs);
    if e !in cell.execs && r.Some? {
      forall d | d in cell.execs ensures cell.execs[d].who == me {
        BeatCoversReadings(cfg, now, at, cell, d);
      }
      TransactionEffects(TClaim(me), cell.job, at, cfg.leaseMs);
      NewLease(cfg, cell, r.value, me, at, cell.execs[e := Exec(me, now, None, false)]);
    }
  }

  lemma {:induction false} RenewKeepsLease(cfg: Config, now: Time, at: Time, cell: Cell, e: nat)
    requires ExecInv(cfg, now, cell) && LeaseStampInv(cfg, now, cell) && now <= at
    requires ClockStep(at, cell, DoRenew(e))
    ensures LeaseStampInv(cfg, now, RenewStep(cfg, now, at, cell, e))
  {
    if e in cell.execs {
      var me := cell.execs[e].who;
      var r := Renew(cell.job, me, at, cfg.leaseMs);
      if r.Some? {
        StatusIsActiveOrTerminal(cell.job.status);
        TransactionEffects(TRenew(me), cell.job, at, cfg.leaseMs);
        NewLease(cfg, cell, r.value, me, at, cell.execs[e := cell.execs[e].(beatAt := now)]);
      }
    }
  }

  /** Finalization takes the lease away, under a heartbeat that no pending cancellation has loaded. */
  lemma {:induction false} FinalizeKeepsLease(cfg: Config, now: Time, at: Time, cell: Cell, me: Identity)
    requires LeaseStampInv(cfg, now, cell) && ClockStep(at, cell, DoFinalize(me))
    ensures LeaseStampInv(cfg, now, WithJob(cell, OrSame(Finalize(cell.job, me, at), cell.job)))
  {
    StatusIsActiveOrTerminal(cell.job.status);
  }

  /** Enqueues, recoveries and shutdowns do not touch a job that is being executed. */
  lemma {:induction false} QueueKeepsLease(cfg: Config, now: Time, at: Time, cell: Cell, step: CellStep)
    requires Timely(cfg) && LeaseStampInv(cfg, now, cell) && at <= now + cfg.clockErrorMs
    requires (step.DoEnqueue? || step.DoReconcile? || step.DoShutdown?) && ClockStep(at, cell, step)
    ensures LeaseStampInv(cfg, now, CellAfter(cfg, now, at, cell, step))
  {
    StatusIsActiveOrTerminal(cell.job.status);
    if cell.execs != map[] {
      var e :| e in cell.execs;
      if Active(cell.job.status) {
        HeldWhileExecuting(cfg, now, at, cell, e);
      }
      assert CellAfter(cfg, now, at, cell, step).job == cell.job;
    } else if step.DoShutdown? && Shutdown(cell.job, step.me, at).Some? {
      StampGrows(cell.stamp, step.me, at);
    }
  }

  /** A step that keeps the lease block and does not return from a terminal status. */
  lemma {:induction false} SameRuntimeKeepsLease(cfg: Config, now: Time, cell: Cell, cell': Cell)
    requires LeaseStampInv(cfg, now, cell)
    requires cell'.job.runtime == cell.job.runtime && cell'.stamp == cell.stamp
    requires Active(cell'.job.status) ==> Active(cell.job.status)
    requires forall e | e in cell'.execs ::
               e in cell.execs && cell'.execs[e].who == cell.execs[e].who
               && cell'.execs[e].beatAt == cell.execs[e].beatAt
    requires forall c | c in cell'.cancels :: c in cell.cancels && cell'.cancels[c] == cell.cancels[c]
    ensures LeaseStampInv(cfg, now, cell')
  {
    if cell'.execs != map[] {
      var e :| e in cell'.execs;
      assert e in cell.execs;
      forall c | c in cell'.cancels ensures CancelInv(cell'.job, cell'.cancels[c]) {
        assert CancelInv(cell.job, cell.cancels[c]);
      }
    }
  }

  lemma {:induction false} RunnerStepRuntime(cfg: Config, now: Time, at: Time, cell: Cell, step: CellStep)
    requires step.DoFirstSave? || step.DoResultSave? || step.DoLoad? || step.DoEnd? || step.DoDelete?
    ensures var cell' := CellAfter(cfg, now, at, cell, step);
            && cell'.job.runtime == cell.job.runtime && cell'.stamp == cell.stamp && cell'.cancels == cell.cancels
            && forall e | e in cell'.execs ::
                 e in cell.execs && cell'.execs[e].who == cell.execs[e].who
                 && cell'.execs[e].beatAt == cell.execs[e].beatAt
  {
  }

  lemma {:induction false} RunnerKeepsLease(cfg: Config, now: Time, at: Time, cell: Cell, step: CellStep)
    requires LeaseStampInv(cfg, now, cell) && ActiveLoads(cell)
    requires step.DoFirstSave? || step.DoResultSave? || step.DoLoad? || step.DoEnd? || step.DoDelete?
    ensures LeaseStampInv(cfg, now, CellAfter(cfg, now, at, cell, step))
  {
    var cell' := CellAfter(cfg, now, at, cell, step);
    StatusIsActiveOrTerminal(cell.job.status);
    StatusIsActiveOrTerminal(cell'.job.status);
    if Terminal(cell.job.status) {
      CellStepStaysTerminal(cfg, now, at, cell, step);
    }
    RunnerStepRuntime(cfg, now, at, cell, step);
    SameRuntimeKeepsLease(cfg, now, cell, cell');
  }

  lemma {:induction false} CancelLoadKeepsLease(cfg: Config, now: Time, at: Time, cell: Cell, c: nat,
                                                allowRunning: bool)
    requires LeaseStampInv(cfg, now, cell)
    ensures LeaseStampInv(cfg, now, CellAfter(cfg, now, at, cell, CancelLoad(c, allowRunning)))
  {
    StatusIsActiveOrTerminal(cell.job.status);
    if cell.execs != map[] {
      var e :| e in cell.execs;
      assert cell.job.runtime.owner == Some(cell.execs[e].who);
    }
  }

  /** While the job is executed, a cancellation request keeps owner and lease. */
  lemma {:induction false} AskedLease(job: Job, allowRunning: bool, at: Time)
    requires Held(job.runtime, at) || Terminal(job.status)
    ensures var asked := OrSame(Cancel(job, allowRunning, at), job);
            && asked.status == job.status
            && asked.runtime.owner == job.runtime.owner && asked.runtime.leaseExpiresAt == job.runtime.leaseExpiresAt
            && (asked.runtime.queueState == Stopping || asked.runtime == job.runtime)
            && (Terminal(job.status) ==> asked == job)
  {
  }

  lemma {:induction false} AskedRuntime(job: Job, allowRunning: bool, at: Time)
    ensures var asked := OrSame(Cancel(job, allowRunning, at), job);
            && asked == job.(runtime := asked.runtime) && asked.runtime.owner == job.runtime.owner
            && asked.runtime.leaseExpiresAt in {job.runtime.leaseExpiresAt, None}
  {
    var tx := TCancel(Identity("", ""), allowRunning);
    if Apply(tx, job, at, 0).Some? {
      TransactionEffects(tx, job, at, 0);
    }
  }

  /** The cancellation transaction ends the call, or stores its answer and remembers that lease block. */
  lemma {:induction false} AskShape(at: Time, cell: Cell, c: nat, queuedHere: bool, activeHere: bool, later: Time)
    requires c in cell.cancels && cell.cancels[c].desired.None?
    ensures var cell', call := AskStep(at, cell, c, queuedHere, activeHere, later), cell.cancels[c];
            var asked := OrSame(Cancel(cell.job, call.allowRunning, at), cell.job);
            && cell'.execs == cell.execs && cell'.stamp == cell.stamp
            && ((cell'.job == cell.job && cell'.cancels == cell.cancels - {c})
                || (&& cell'.job == asked && c in cell'.cancels && cell'.cancels == cell.cancels[c := cell'.cancels[c]]
                    && cell'.cancels[c].loaded == call.loaded && cell'.cancels[c].desired.Some?
                    && cell'.cancels[c].desired.value.runtime == asked.runtime))
  {
  }

  lemma {:induction false} AskedKeepsStamps(cfg: Config, now: Time, cell: Cell, cell': Cell, c: nat)
    requires LeaseStampInv(cfg, now, cell) && c in cell.cancels && c in cell'.cancels
    requires cell'.execs == cell.execs && cell'.stamp == cell.stamp
             && cell'.cancels == cell.cancels[c := cell'.cancels[c]]
    requires cell'.cancels[c].loaded == cell.cancels[c].loaded && cell'.cancels[c].desired.Some?
    requires cell'.cancels[c].desired.value.runtime == cell'.job.runtime
    requires Bounded(cfg, cell.stamp, cell'.job.runtime) && LeaseInv(cfg, now, cell')
    requires cell.execs != map[] ==>
               && cell'.job.runtime.owner == cell.job.runtime.owner
               && cell'.job.runtime.leaseExpiresAt == cell.job.runtime.leaseExpiresAt
               && cell'.job.status == cell.job.status && (Terminal(cell.job.status) ==> cell'.job == cell.job)
    ensures StampInv(cfg, cell')
  {
    if cell.execs != map[] {
      var e :| e in cell.execs;
      assert cell'.job.runtime.owner == Some(cell.execs[e].who);
      StatusIsActiveOrTerminal(cell.job.status);
      forall d | d in cell'.cancels ensures CancelInv(cell'.job, cell'.cancels[d]) {
        assert CancelInv(cell.job, cell.cancels[d]);
      }
    }
  }

  lemma {:induction false} AskKeepsLease(cfg: Config, now: Time, at: Time, cell: Cell, c: nat, queuedHere: bool,
                                         activeHere: bool, later: Time)
    requires Timely(cfg) && LeaseStampInv(cfg, now, cell) && at <= now + cfg.clockErrorMs
    ensures LeaseStampInv(cfg, now, AskStep(at, cell, c, queuedHere, activeHere, later))
  {
    if c in cell.cancels && cell.cancels[c].desired.None? {
      var cell' := AskStep(at, cell, c, queuedHere, activeHere, later);
      AskShape(at, cell, c, queuedHere, activeHere, later);
      if c in cell'.cancels {
        AskedRuntime(cell.job, cell.cancels[c].allowRunning, at);
        if cell.execs != map[] {
          ExecutedIsHeld(cfg, now, at, cell);
          AskedLease(cell.job, cell.cancels[c].allowRunning, at);
        }
        AskedKeepsStamps(cfg, now, cell, cell', c);
      }
    }
  }

  lemma {:induction false} ExecutedIsHeld(cfg: Config, now: Time, at: Time, cell: Cell)
    requires Timely(cfg) && LeaseInv(cfg, now, cell) && cell.execs != map[] && at <= now + cfg.clockErrorMs
    ensures Held(cell.job.runtime, at) || Terminal(cell.job.status)
  {
    var e :| e in cell.execs;
    StatusIsActiveOrTerminal(cell.job.status);
    if Active(cell.job.status) {
      HeldWhileExecuting(cfg, now, at, cell, e);
    }
  }

  lemma {:induction false} CancelSaveKeepsLease(cfg: Config, now: Time, cell: Cell, c: nat)
    requires LeaseStampInv(cfg, now, cell) && CancelsActive(cell)
    ensures LeaseStampInv(cfg, now, CancelSaveStep(cell, c))
  {
    if c in cell.cancels && cell.cancels[c].desired.Some? {
      var call := cell.cancels[c];
      StatusIsActiveOrTerminal(cell.job.status);
      if Terminal(cell.job.status) {
        CancelSaveKeepsTerminal(cell, c);
      }
      if SaveJob(cell.job, call.loaded, call.desired.value).Some? {
        SaveStatus(cell.job, call.loaded, call.desired.value);
        StatusIsActiveOrTerminal(SaveJob(cell.job, call.loaded, call.desired.value).value.status);
      }
    }
  }

  lemma {:induction false} CellStepKeepsLease(cfg: Config, now: Time, at: Time, cell: Cell, step: CellStep)
    requires Timely(cfg) && ExecInv(cfg, now, cell) && LeaseStampInv(cfg, now, cell)
             && now <= at <= now + cfg.clockErrorMs
    requires ActiveLoads(cell) && ClockStep(at, cell, step)
    ensures LeaseStampInv(cfg, now, CellAfter(cfg, now, at, cell, step))
  {
    match step
    case DoClaim(e, me) => ClaimKeepsLease(cfg, now, at, cell, e, me);
    case DoRenew(e) => RenewKeepsLease(cfg, now, at, cell, e);
    case DoFinalize(me) => FinalizeKeepsLease(cfg, now, at, cell, me);
    case DoEnqueue(_) => QueueKeepsLease(cfg, now, at, cell, step);
    case DoReconcile(_) => QueueKeepsLease(cfg, now, at, cell, step);
    case DoShutdown(_) => QueueKeepsLease(cfg, now, at, cell, step);
    case CancelAsk(c, queuedHere, activeHere, later) =>
      AskKeepsLease(cfg, now, at, cell, c, queuedHere, activeHere, later);
    case CancelSave(c) => CancelSaveKeepsLease(cfg, now, cell, c);
    case CancelLoad(c, allowRunning) => CancelLoadKeepsLease(cfg, now, at, cell, c, allowRunning);
    case _ => RunnerKeepsLease(cfg, now, at, cell, step);
  }

  ghost predicate AllLeaseStampInv(cfg: Config, s: State) {
    forall id | id in s.cells :: LeaseStampInv(cfg, s.now, s.cells[id])
  }

  ghost predicate LeaseStep(cfg: Config, s: State, step: Step) {
    && BeatsOnTime(cfg, s, step)
    && (step.On? && step.id in s.cells ==> ClockStep(step.at, s.cells[step.id], step.step))
  }

  ghost predicate LeaseRun(cfg: Config, steps: seq<Step>) {
    forall i | 0 <= i < |steps| :: LeaseStep(cfg, Execute(cfg, steps[..i]), steps[i])
  }

  ghost predicate AllExecInv(cfg: Config, s: State) {
    forall id | id in s.cells :: ExecInv(cfg, s.now, s.cells[id])
  }

  lemma {:induction false} RunKeepsAllExecInv(cfg: Config, steps: seq<Step>)
    requires Timely(cfg) && FreshRun(cfg, steps) && DisciplinedRun(cfg, steps)
    ensures AllExecInv(cfg, Execute(cfg, steps))
  {
    var s := Execute(cfg, steps);
    forall id | id in s.cells ensures ExecInv(cfg, s.now, s.cells[id]) {
      DisciplineParts(cfg, steps, id);
      RunKeepsExecInv(cfg, steps, id);
    }
  }

  lemma {:induction false} StepKeepsLease(cfg: Config, s: State, step: Step)
    requires Timely(cfg) && AllExecInv(cfg, s) && AllLeaseStampInv(cfg, s) && AllActiveLoads(s)
    requires Disciplined(cfg, s, step) && LeaseStep(cfg, s, step) && (step.Create? ==> Fresh(step.job))
    ensures AllLeaseStampInv(cfg, After(cfg, s, step))
  {
    if step.On? && step.id in s.cells {
      CellStepKeepsLease(cfg, s.now, step.at, s.cells[step.id], step.step);
    } else if step.Tick? {
      forall id | id in s.cells ensures LeaseStampInv(cfg, s.now + step.milliseconds, s.cells[id]) {
        assert LeaseStampInv(cfg, s.now, s.cells[id]);
      }
    }
  }

  lemma {:induction false} RunKeepsLease(cfg: Config, steps: seq<Step>)
    requires Timely(cfg) && FreshRun(cfg, steps) && DisciplinedRun(cfg, steps)
    requires ActiveLoadsRun(cfg, steps) && LeaseRun(cfg, steps)
    ensures AllLeaseStampInv(cfg, Execute(cfg, steps))
    decreases |steps|
  {
    if steps != [] {
      var n := |steps| - 1;
      var before := steps[..n];
      Shorter(cfg, steps, n);
      ShorterActive(cfg, steps, n);
      assert LeaseRun(cfg, before) by {
        forall i | 0 <= i < n ensures before[..i] == steps[..i] && before[i] == steps[i] {
        }
      }
      RunKeepsLease(cfg, before);
      RunKeepsAllExecInv(cfg, before);
      RunKeepsActiveLoads(cfg, before);
      var s, step := Execute(cfg, before), steps[n];
      assert Disciplined(cfg, s, step) && LeaseStep(cfg, s, step) && FreshOnly(s, step);
      StepKeepsLease(cfg, s, step);
    }
  }

  /** Executing implies: the record names the executor's runtime as owner, and either its lease is valid
    * for every admissible clock reading or the job has reached a terminal status. */
  lemma {:induction false} ExecutorHoldsLease(cfg: Config, steps: seq<Step>, id: JobId, e: nat, at: Time)
    requires Timely(cfg) && FreshRun(cfg, steps) && DisciplinedRun(cfg, steps)
    requires ActiveLoadsRun(cfg, steps) && LeaseRun(cfg, steps)
    requires var s := Execute(cfg, steps); id in s.cells && e in s.cells[id].execs && at <= s.now + cfg.clockErrorMs
    ensures var cell := Execute(cfg, steps).cells[id];
            && cell.job.runtime.owner == Some(cell.execs[e].who)
            && (LeaseValid(cell.job.runtime, at) || Terminal(cell.job.status))
  {
    RunKeepsLease(cfg, steps);
    var s := Execute(cfg, steps);
    assert LeaseStampInv(cfg, s.now, s.cells[id]);
    StatusIsActiveOrTerminal(s.cells[id].job.status);
  }

  /** In such runs no heartbeat of an executor is refused while its job is active and not deleted: it
    * extends the lease to the full duration and counts as the last beat. */
  lemma {:induction false} HeartbeatExtendsLease(cfg: Config, steps: seq<Step>, id: JobId, e: nat, at: Time)
    requires Timely(cfg) && FreshRun(cfg, steps) && DisciplinedRun(cfg, steps)
    requires ActiveLoadsRun(cfg, steps) && LeaseRun(cfg, steps)
    requires var s := Execute(cfg, steps);
             && id in s.cells && e in s.cells[id].execs
             && !Terminal(s.cells[id].job.status) && !s.cells[id].job.logicalDeleted
    ensures var s := Execute(cfg, steps);
            var cell := CellAfter(cfg, s.now, at, s.cells[id], DoRenew(e));
            && cell.job.runtime.leaseExpiresAt == Some(at + cfg.leaseMs) && cell.execs[e].beatAt == s.now
            && cell.job == s.cells[id].job.(runtime := cell.job.runtime)
  {
    RunKeepsLease(cfg, steps);
    var s := Execute(cfg, steps);
    var cell := s.cells[id];
    assert LeaseStampInv(cfg, s.now, cell);
    CommitsExactly(TRenew(cell.execs[e].who), cell.job, at, cfg.leaseMs);
    TransactionEffects(TRenew(cell.execs[e].who), cell.job, at, cfg.leaseMs);
  }
}
