/** A job that is only cancelled while unclaimed is never taken from the holder of a valid lease. */
module QueueHandover {
  import opened Wrappers
  import opened QueueRecord
  import opened QueueRuns
  import opened QueueSafety

  /** Cancellations use `allowRunning = false` and do not read the very heartbeat they have loaded from an
    * earlier cancellation; a runtime claims at a later reading than it has stored before, and its clock
    * does not run backwards between its beats. Readings of different runtimes are not compared. */
  ghost predicate HandoverStep(at: Time, cell: Cell, step: CellStep) {
    && (step.CancelLoad? ==> !step.allowRunning)
    && (step.CancelAsk? && step.call in cell.cancels ==>
          var loaded := cell.cancels[step.call].loaded.runtime;
          loaded.queueState == Ended ==> loaded.heartbeatAt != Some(at))
    && (step.DoClaim? && step.me in cell.stamp ==> at > cell.stamp[step.me])
    && (step.DoRenew? && step.exec in cell.execs && cell.execs[step.exec].who in cell.stamp ==>
          at >= cell.stamp[cell.execs[step.exec].who])
    && (step.DoShutdown? && step.me in cell.stamp ==> at >= cell.stamp[step.me])
    && LoadsActive(cell, step)
  }

  /** A record whose status is active is `running` under a lease, with a heartbeat its owner has stored,
    * or not owned at all. */
  ghost predicate Settled(job: Job, stamp: map<Identity, Time>) {
    && job.runtime.queueState !in {Claimed, Stopping}
    && (Active(job.status) ==>
          if job.runtime.queueState == Running then
            && job.runtime.owner.Some? && job.runtime.owner.value in stamp
            && job.runtime.heartbeatAt.Some? && job.runtime.heartbeatAt.value <= stamp[job.runtime.owner.value]
            && job.runtime.leaseExpiresAt.Some? && job.status != Cancelling
          else job.runtime.owner.None? && job.runtime.leaseExpiresAt.None?)
  }

  ghost predicate PendingCancel(cell: Cell, call: CancelCall) {
    && !call.allowRunning && Active(call.loaded.status) && Settled(call.loaded, cell.stamp)
    && (call.desired.Some? ==> call.desired.value.runtime.queueState !in {Claimed, Stopping})
    && (call.desired.Some? && Active(cell.job.status) ==>
          && call.desired.value.runtime.queueState == Ended && call.desired.value.runtime != call.loaded.runtime
          && call.desired.value.runtime.owner.None? && call.desired.value.runtime.leaseExpiresAt.None?
          && (cell.job.runtime.leaseExpiresAt.Some? && cell.job.runtime.owner == call.loaded.runtime.owner ==>
                && cell.job.runtime.heartbeatAt.Some? && call.loaded.runtime.heartbeatAt.Some?
                && cell.job.runtime.heartbeatAt.value > call.loaded.runtime.heartbeatAt.value))
  }

  ghost predicate HandoverInv(cell: Cell) {
    && ActiveLoads(cell)
    && Settled(cell.job, cell.stamp)
    && forall c | c in cell.cancels :: PendingCancel(cell, cell.cancels[c])
  }

  /** The record moved on in a way that keeps pending cancellations harmless: a lease it carries now was
    * stamped later than everything its owner had stored, or it continues a lease of the same owner. */
  ghost predicate LeaseMovedOn(cell: Cell, cell': Cell) {
    && (forall o | o in cell.stamp :: o in cell'.stamp && cell'.stamp[o] >= cell.stamp[o])
    && (Active(cell'.job.status) ==> Active(cell.job.status))
    && (cell'.job.runtime.leaseExpiresAt.Some? && Active(cell'.job.status) ==>
          && cell'.job.runtime.owner.Some? && cell'.job.runtime.heartbeatAt.Some?
          && ((cell'.job.runtime.owner.value in cell.stamp ==>
                 cell'.job.runtime.heartbeatAt.value > cell.stamp[cell'.job.runtime.owner.value])
              || (&& cell.job.runtime.leaseExpiresAt.Some? && cell.job.runtime.heartbeatAt.Some?
                  && cell.job.runtime.owner == cell'.job.runtime.owner
                  && cell'.job.runtime.heartbeatAt.value >= cell.job.runtime.heartbeatAt.value)))
  }

  lemma {:induction false} PendingKept(cell: Cell, cell': Cell, call: CancelCall)
    requires PendingCancel(cell, call) && LeaseMovedOn(cell, cell')
    ensures PendingCancel(cell', call)
  {
  }

  lemma {:induction false} CancelsKept(cell: Cell, cell': Cell)
    requires HandoverInv(cell) && LeaseMovedOn(cell, cell')
    requires forall c | c in cell'.cancels :: c in cell.cancels && cell'.cancels[c] == cell.cancels[c]
    ensures forall c | c in cell'.cancels :: PendingCancel(cell', cell'.cancels[c])
  {
    forall c | c in cell'.cancels ensures PendingCancel(cell', cell'.cancels[c]) {
      PendingKept(cell, cell', cell.cancels[c]);
    }
  }

  lemma {:induction false} CancelUnclaimed(job: Job, stamp: map<Identity, Time>, at: Time)
    requires Settled(job, stamp) && Cancel(job, false, at).Some?
    ensures var asked := Cancel(job, false, at).value;
            && asked.status == job.status == Queued
            && asked.runtime ==
                 job.runtime.(queueState := Ended, heartbeatAt := Some(at), cancellationRequested := true)
            && asked.runtime.owner.None? && asked.runtime.leaseExpiresAt.None?
  {
  }

  lemma {:induction false} AskedIsSettled(at: Time, cell: Cell, c: nat, queuedHere: bool, activeHere: bool, later: Time)
    requires HandoverInv(cell) && HandoverStep(at, cell, CancelAsk(c, queuedHere, activeHere, later))
    ensures var cell' := AskStep(at, cell, c, queuedHere, activeHere, later);
            Settled(cell'.job, cell'.stamp) && LeaseMovedOn(cell, cell')
  {
    if c in cell.cancels && cell.cancels[c].desired.None? {
      assert PendingCancel(cell, cell.cancels[c]);
      if Cancel(cell.job, false, at).Some? {
        CancelUnclaimed(cell.job, cell.stamp, at);
      }
    }
  }

  lemma {:induction false} AskedIsPending(at: Time, cell: Cell, c: nat, queuedHere: bool, activeHere: bool,
                                          later: Time, d: nat)
    requires HandoverInv(cell) && HandoverStep(at, cell, CancelAsk(c, queuedHere, activeHere, later))
    requires d in cell.cancels
    ensures var cell' := AskStep(at, cell, c, queuedHere, activeHere, later);
            d in cell'.cancels ==> PendingCancel(cell', cell'.cancels[d])
  {
    assert PendingCancel(cell, cell.cancels[d]);
    if d != c || cell.cancels[d].desired.Some? {
      AskedIsSettled(at, cell, c, queuedHere, activeHere, later);
      PendingKept(cell, AskStep(at, cell, c, queuedHere, activeHere, later), cell.cancels[d]);
    } else {
      OwnAskIsPending(at, cell, c, queuedHere, activeHere, later);
    }
  }

  /** The asking call itself: its answer is unowned, or the job is terminal. */
  lemma {:induction false} OwnAskIsPending(at: Time, cell: Cell, c: nat, queuedHere: bool, activeHere: bool,
                                           later: Time)
    requires HandoverInv(cell) && HandoverStep(at, cell, CancelAsk(c, queuedHere, activeHere, later))
    requires c in cell.cancels && cell.cancels[c].desired.None?
    ensures var cell' := AskStep(at, cell, c, queuedHere, activeHere, later);
            c in cell'.cancels ==> PendingCancel(cell', cell'.cancels[c])
  {
    assert PendingCancel(cell, cell.cancels[c]);
    StatusIsActiveOrTerminal(cell.job.status);
    if Cancel(cell.job, false, at).Some? {
      CancelUnclaimed(cell.job, cell.stamp, at);
    }
  }

  /** The cancel transaction of an unclaimed job, or its refusal. */
  lemma {:induction false} AskKeepsHandoverInv(cfg: Config, now: Time, at: Time, cell: Cell, c: nat,
                                               queuedHere: bool, activeHere: bool, later: Time)
    requires HandoverInv(cell) && HandoverStep(at, cell, CancelAsk(c, queuedHere, activeHere, later))
    ensures HandoverInv(CellAfter(cfg, now, at, cell, CancelAsk(c, queuedHere, activeHere, later)))
  {
    CellStepKeepsStatuses(cfg, now, at, cell, CancelAsk(c, queuedHere, activeHere, later));
    AskedIsSettled(at, cell, c, queuedHere, activeHere, later);
    forall d | d in AskStep(at, cell, c, queuedHere, activeHere, later).cancels
      ensures var cell' := AskStep(at, cell, c, queuedHere, activeHere, later); PendingCancel(cell', cell'.cancels[d])
    {
      assert d in cell.cancels;
      AskedIsPending(at, cell, c, queuedHere, activeHere, later, d);
    }
  }

  lemma {:induction false} SaveKeepsHandoverInv(cfg: Config, now: Time, at: Time, cell: Cell, c: nat)
    requires HandoverInv(cell)
    ensures HandoverInv(CellAfter(cfg, now, at, cell, CancelSave(c)))
    ensures Active(cell.job.status) && cell.job.runtime.leaseExpiresAt.Some? ==>
              CellAfter(cfg, now, at, cell, CancelSave(c)).job.runtime == cell.job.runtime
  {
    StatusIsActiveOrTerminal(cell.job.status);
    CellStepKeepsStatuses(cfg, now, at, cell, CancelSave(c));
    var cell' := CellAfter(cfg, now, at, cell, CancelSave(c));
    if c in cell.cancels && cell.cancels[c].desired.Some? {
      var call := cell.cancels[c];
      assert PendingCancel(cell, call);
      if SaveJob(cell.job, call.loaded, call.desired.value).Some? {
        SaveStatus(cell.job, call.loaded, call.desired.value);
        StatusIsActiveOrTerminal(cell'.job.status);
      }
      CancelsKept(cell, cell');
    }
  }

  lemma {:induction false} RunnerStepStatus(cfg: Config, now: Time, at: Time, cell: Cell, step: CellStep)
    requires step.DoFirstSave? || step.DoResultSave? || step.DoLoad? || step.DoEnd? || step.DoDelete?
    ensures var cell' := CellAfter(cfg, now, at, cell, step);
            && cell'.job.runtime == cell.job.runtime && cell'.stamp == cell.stamp && cell'.cancels == cell.cancels
            && (cell'.job.status in {cell.job.status, Generating} || Terminal(cell'.job.status))
  {
  }

  lemma {:induction false} RunnerKeepsHandoverInv(cfg: Config, now: Time, at: Time, cell: Cell, step: CellStep)
    requires HandoverInv(cell) && LoadsActive(cell, step)
    requires step.DoFirstSave? || step.DoResultSave? || step.DoLoad? || step.DoEnd? || step.DoDelete?
    ensures HandoverInv(CellAfter(cfg, now, at, cell, step))
  {
    StatusIsActiveOrTerminal(cell.job.status);
    CellStepKeepsStatuses(cfg, now, at, cell, step);
    RunnerStepStatus(cfg, now, at, cell, step);
    var cell' := CellAfter(cfg, now, at, cell, step);
    StatusIsActiveOrTerminal(cell'.job.status);
    CancelsKept(cell, cell');
  }

  lemma {:induction false} LoadKeepsHandoverInv(cfg: Config, now: Time, at: Time, cell: Cell, c: nat)
    requires HandoverInv(cell)
    ensures HandoverInv(CellAfter(cfg, now, at, cell, CancelLoad(c, false)))
  {
    StatusIsActiveOrTerminal(cell.job.status);
    var cell' := CellAfter(cfg, now, at, cell, CancelLoad(c, false));
    forall d | d in cell'.cancels ensures PendingCancel(cell', cell'.cancels[d]) {
      if d in cell.cancels {
        PendingKept(cell, cell', cell.cancels[d]);
      }
    }
  }

  /** A queue transaction leaves a settled record behind, with a lease that has moved on. */
  lemma {:induction false} ClaimSettles(cfg: Config, now: Time, at: Time, cell: Cell, e: nat, me: Identity)
    requires HandoverInv(cell) && HandoverStep(at, cell, DoClaim(e, me))
    ensures var cell' := ClaimStep(cfg, now, at, cell, e, me);
            Settled(cell'.job, cell'.stamp) && LeaseMovedOn(cell, cell') && cell'.cancels == cell.cancels
  {
  }

  lemma {:induction false} RenewSettles(cfg: Config, now: Time, at: Time, cell: Cell, e: nat)
    requires HandoverInv(cell) && HandoverStep(at, cell, DoRenew(e))
    ensures var cell' := RenewStep(cfg, now, at, cell, e);
            Settled(cell'.job, cell'.stamp) && LeaseMovedOn(cell, cell') && cell'.cancels == cell.cancels
  {
    StatusIsActiveOrTerminal(cell.job.status);
  }

  lemma {:induction false} ShutdownSettles(at: Time, cell: Cell, me: Identity)
    requires HandoverInv(cell) && HandoverStep(at, cell, DoShutdown(me))
    ensures var cell' := ShutdownStep(at, cell, me);
            Settled(cell'.job, cell'.stamp) && LeaseMovedOn(cell, cell') && cell'.cancels == cell.cancels
  {
  }

  lemma {:induction false} ReleaseStepSettles(cfg: Config, now: Time, at: Time, cell: Cell, step: CellStep)
    requires HandoverInv(cell) && (step.DoFinalize? || step.DoEnqueue? || step.DoReconcile?)
    ensures var cell' := CellAfter(cfg, now, at, cell, step);
            Settled(cell'.job, cell'.stamp) && LeaseMovedOn(cell, cell') && cell'.cancels == cell.cancels
  {
    StatusIsActiveOrTerminal(cell.job.status);
    StatusIsActiveOrTerminal(CellAfter(cfg, now, at, cell, step).job.status);
  }

  lemma {:induction false} QueueStepKeepsHandoverInv(cfg: Config, now: Time, at: Time, cell: Cell, step: CellStep)
    requires HandoverInv(cell) && HandoverStep(at, cell, step)
    requires step.DoClaim? || step.DoRenew? || step.DoFinalize? || step.DoEnqueue? || step.DoReconcile?
             || step.DoShutdown?
    ensures HandoverInv(CellAfter(cfg, now, at, cell, step))
  {
    CellStepKeepsActiveLoads(cfg, now, at, cell, step);
    match step {
      case DoClaim(e, me) => ClaimSettles(cfg, now, at, cell, e, me);
      case DoRenew(e) => RenewSettles(cfg, now, at, cell, e);
      case DoShutdown(me) => ShutdownSettles(at, cell, me);
      case _ => ReleaseStepSettles(cfg, now, at, cell, step);
    }
    CancelsKept(cell, CellAfter(cfg, now, at, cell, step));
  }

  lemma {:induction false} CellStepKeepsHandoverInv(cfg: Config, now: Time, at: Time, cell: Cell, step: CellStep)
    requires HandoverInv(cell) && HandoverStep(at, cell, step)
    ensures HandoverInv(CellAfter(cfg, now, at, cell, step))
  {
    match step
    case CancelAsk(c, queuedHere, activeHere, later) =>
      AskKeepsHandoverInv(cfg, now, at, cell, c, queuedHere, activeHere, later);
    case CancelSave(c) => SaveKeepsHandoverInv(cfg, now, at, cell, c);
    case DoLoad(_) => RunnerKeepsHandoverInv(cfg, now, at, cell, step);
    case DoFirstSave(_) => RunnerKeepsHandoverInv(cfg, now, at, cell, step);
    case DoResultSave(_, _, _, _, _) => RunnerKeepsHandoverInv(cfg, now, at, cell, step);
    case DoEnd(_) => RunnerKeepsHandoverInv(cfg, now, at, cell, step);
    case DoDelete => RunnerKeepsHandoverInv(cfg, now, at, cell, step);
    case CancelLoad(c, _) => LoadKeepsHandoverInv(cfg, now, at, cell, c);
    case _ => QueueStepKeepsHandoverInv(cfg, now, at, cell, step);
  }

  ghost predicate HandoverRun(cfg: Config, steps: seq<Step>) {
    forall i | 0 <= i < |steps| ::
      && (steps[i].Create? ==> Fresh(steps[i].job))
      && (steps[i].On? && steps[i].id in Execute(cfg, steps[..i]).cells ==>
            HandoverStep(steps[i].at, Execute(cfg, steps[..i]).cells[steps[i].id], steps[i].step))
  }

  lemma {:induction false} RunKeepsHandoverInv(cfg: Config, steps: seq<Step>, id: JobId)
    requires HandoverRun(cfg, steps) && id in Execute(cfg, steps).cells
    ensures HandoverInv(Execute(cfg, steps).cells[id])
    decreases |steps|
  {
    if steps != [] {
      var n := |steps| - 1;
      var before := steps[..n];
      assert HandoverRun(cfg, before) by {
        forall i | 0 <= i < n ensures before[..i] == steps[..i] && before[i] == steps[i] {
        }
      }
      var s, step := Execute(cfg, before), steps[n];
      if id in s.cells {
        RunKeepsHandoverInv(cfg, before, id);
        if step.On? && step.id == id {
          CellStepKeepsHandoverInv(cfg, s.now, step.at, s.cells[id], step.step);
        }
      }
    }
  }

  /** The runtime that takes a step, if a runtime takes it as such. */
  function Actor(cell: Cell, step: CellStep): Option<Identity> {
    match step
    case DoClaim(_, me) => Some(me)
    case DoFinalize(me) => Some(me)
    case DoReconcile(me) => Some(me)
    case DoShutdown(me) => Some(me)
    case DoRenew(e) => if e in cell.execs then Some(cell.execs[e].who) else None
    case _ => None
  }

  lemma {:induction false} HandoverOfCell(cfg: Config, now: Time, at: Time, cell: Cell, step: CellStep)
    requires HandoverInv(cell) && Active(cell.job.status)
    requires cell.job.runtime.owner.Some? && LeaseValid(cell.job.runtime, at)
             && Actor(cell, step) != cell.job.runtime.owner
    ensures CellAfter(cfg, now, at, cell, step).job.runtime == cell.job.runtime
  {
    StatusIsActiveOrTerminal(cell.job.status);
    if step.CancelSave? {
      SaveKeepsHandoverInv(cfg, now, at, cell, step.call);
    } else if step.CancelAsk? && step.call in cell.cancels {
      assert PendingCancel(cell, cell.cancels[step.call]);
    }
  }

  /** Handover: in such runs no job is ever in the `cancelling` queue state, and while the lease of an
    * active job is valid for the reading of a step, no step of another runtime and no cancellation,
    * enqueue or runner save changes its owner or any other part of its lease block. */
  lemma {:induction false} LeaseIsRespected(cfg: Config, steps: seq<Step>, id: JobId, at: Time, step: CellStep)
    requires HandoverRun(cfg, steps) && id in Execute(cfg, steps).cells
    ensures Execute(cfg, steps).cells[id].job.runtime.queueState != Stopping
    ensures var s := Execute(cfg, steps);
            var cell := s.cells[id];
            Active(cell.job.status) && cell.job.runtime.owner.Some? && LeaseValid(cell.job.runtime, at)
            && Actor(cell, step) != cell.job.runtime.owner ==>
              CellAfter(cfg, s.now, at, cell, step).job.runtime == cell.job.runtime
  {
    RunKeepsHandoverInv(cfg, steps, id);
    var s := Execute(cfg, steps);
    var cell := s.cells[id];
    if Active(cell.job.status) && cell.job.runtime.owner.Some? && LeaseValid(cell.job.runtime, at)
       && Actor(cell, step) != cell.job.runtime.owner {
      HandoverOfCell(cfg, s.now, at, cell, step);
    }
  }
}
