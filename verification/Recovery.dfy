/** The recovery pass: reconciling every active record at one time, and the local queue it rebuilds
  * (backend/src/queue/jobQueue.js, `reconcileInterruptedJob` and `reconcileQueue`). */
module Recovery {
  import opened Wrappers
  import opened QueueRecord

  type JobId = string
  type Jobs = map<JobId, Job>

  function Reconciled(job: Job, me: Identity, at: Time): Job {
    var r := Reconcile(job, me, at);
    if r.Some? then r.value else job
  }

  function Pass(jobs: Jobs, me: Identity, at: Time): Jobs {
    map id | id in jobs :: Reconciled(jobs[id], me, at)
  }

  /** What the pass queries: records with an active status that are not logically deleted. */
  predicate Inspected(job: Job) {
    Active(job.status) && !job.logicalDeleted
  }

  /** The recovery of this record commits and leaves it `queued`. */
  predicate Requeues(jobs: Jobs, id: JobId, me: Identity, at: Time) {
    id in jobs && Reconcile(jobs[id], me, at).Some? && jobs[id].status == Queued
  }

  /** The ids this pass appends to the local queue, in inspection order. */
  function Requeued(jobs: Jobs, known: set<JobId>, found: seq<JobId>, me: Identity, at: Time): (ids: seq<JobId>)
    decreases |found|
  {
    if found == [] then []
    else
      var n := |found| - 1;
      var before := Requeued(jobs, known, found[..n], me, at);
      var id := found[n];
      if Requeues(jobs, id, me, at) && id !in known && id !in before then before + [id] else before
  }

  /** The records while a pass is under way: those in `done` are reconciled. */
  ghost predicate PartlyPassed(before: Jobs, jobs: Jobs, done: seq<JobId>, me: Identity, at: Time) {
    && jobs.Keys == before.Keys
    && forall id | id in before :: jobs[id] == if id in done then Reconciled(before[id], me, at) else before[id]
  }

  lemma {:induction false} RequeuedOneMore(jobs: Jobs, known: set<JobId>, done: seq<JobId>, id: JobId, me: Identity,
                                           at: Time)
    ensures var ids := Requeued(jobs, known, done, me, at);
            Requeued(jobs, known, done + [id], me, at) ==
              if Requeues(jobs, id, me, at) && id !in known && id !in ids then ids + [id] else ids
  {
    assert (done + [id])[..|done|] == done;
  }

  predicate Distinct(ids: seq<JobId>) {
    forall i, j | 0 <= i < j < |ids| :: ids[i] != ids[j]
  }

  lemma {:induction false} NextFound(found: seq<JobId>, i: nat)
    requires i < |found| && Distinct(found)
    ensures found[..i + 1] == found[..i] + [found[i]] && found[i] !in found[..i]
  {
  }

  /** What the runtime knows after queueing `ids` on top of what it knew. */
  ghost predicate Knows(before: set<JobId>, ids: seq<JobId>, known: set<JobId>) {
    forall id :: id in known <==> id in before || id in ids
  }

  lemma {:induction false} PassedOneMore(before: Jobs, jobs: Jobs, done: seq<JobId>, id: JobId, me: Identity, at: Time)
    requires PartlyPassed(before, jobs, done, me, at) && id in before && id !in done
    ensures id in jobs && PartlyPassed(before, jobs[id := Reconciled(jobs[id], me, at)], done + [id], me, at)
    ensures Requeues(jobs, id, me, at) <==> Requeues(before, id, me, at)
  {
  }

  lemma {:induction false} PassedAll(before: Jobs, jobs: Jobs, found: seq<JobId>, me: Identity, at: Time)
    requires PartlyPassed(before, jobs, found, me, at)
    requires forall id :: id in found <==> id in before && Inspected(before[id])
    ensures jobs == Pass(before, me, at)
  {
    forall id | id in before && !Inspected(before[id])
      ensures Reconciled(before[id], me, at) == before[id]
    {
    }
  }

  /** What a runtime sees: the shared records, its local queue, and the ids it knows. */
  datatype View = View(jobs: Jobs, queue: seq<JobId>, known: set<JobId>)

  /** One record: the transaction, then the local bookkeeping. */
  function Handled(v: View, id: JobId, me: Identity, at: Time): View {
    if Requeues(v.jobs, id, me, at) && id !in v.known then
      View(v.jobs[id := Reconciled(v.jobs[id], me, at)], v.queue + [id], v.known + {id})
    else
      v.(jobs := if id in v.jobs then v.jobs[id := Reconciled(v.jobs[id], me, at)] else v.jobs)
  }

  /** A pass under way: the records in `done` are reconciled, queued and noted. */
  ghost predicate PartlyDone(before: View, v: View, done: seq<JobId>, me: Identity, at: Time) {
    && PartlyPassed(before.jobs, v.jobs, done, me, at)
    && v.queue == before.queue + Requeued(before.jobs, before.known, done, me, at)
    && Knows(before.known, Requeued(before.jobs, before.known, done, me, at), v.known)
  }

  lemma {:induction false} HandledOneMore(before: View, v: View, done: seq<JobId>, id: JobId, me: Identity, at: Time)
    requires PartlyDone(before, v, done, me, at) && id in before.jobs && id !in done
    ensures PartlyDone(before, Handled(v, id, me, at), done + [id], me, at)
  {
    PassedOneMore(before.jobs, v.jobs, done, id, me, at);
    RequeuedOneMore(before.jobs, before.known, done, id, me, at);
  }

  /** The records and one runtime's local collections, changed in place. */
  class RuntimeQueue {
    var jobs: Jobs
    var queuedJobIds: seq<JobId>
    var knownJobIds: set<JobId>

    constructor (jobs: Jobs)
      ensures State() == View(jobs, [], {})
    {
      this.jobs := jobs;
      queuedJobIds := [];
      knownJobIds := {};
    }

    ghost function State(): View
      reads this
    {
      View(jobs, queuedJobIds, knownJobIds)
    }

    method ReconcileInterruptedJob(id: JobId, me: Identity, at: Time)
      modifies this
      ensures State() == Handled(old(State()), id, me, at)
    {
      if id !in jobs {
        return;
      }
      var r := Reconcile(jobs[id], me, at);
      if r.None? {
        assert jobs[id := jobs[id]] == jobs;
        return;
      }
      jobs := jobs[id := r.value];
      if r.value.status == Queued && id !in knownJobIds {
        knownJobIds := knownJobIds + {id};
        queuedJobIds := queuedJobIds + [id];
      }
    }

    /** The whole pass over the records found by the query, each found once. */
    method ReconcileQueue(found: seq<JobId>, me: Identity, at: Time)
      requires forall id :: id in found <==> id in jobs && Inspected(jobs[id])
      requires Distinct(found)
      modifies this
      ensures jobs == Pass(old(jobs), me, at)
      ensures queuedJobIds == old(queuedJobIds) + Requeued(old(jobs), old(knownJobIds), found, me, at)
      ensures Knows(old(knownJobIds), Requeued(old(jobs), old(knownJobIds), found, me, at), knownJobIds)
    {
      ghost var before := State();
      var i := 0;
      while i < |found|
        invariant 0 <= i <= |found|
        invariant PartlyDone(before, State(), found[..i], me, at)
      {
        NextFound(found, i);
        HandledOneMore(before, State(), found[..i], found[i], me, at);
        ReconcileInterruptedJob(found[i], me, at);
        i := i + 1;
      }
      assert found[..i] == found;
      PassedAll(before.jobs, jobs, found, me, at);
    }
  }

  /** A recovered queue entry: back in the queue with every trace of ownership gone. */
  predicate RecoveredEntry(job: Job) {
    job.status == Queued && job.runtime == UNOWNED.(recovery := Some(Recovered))
  }

  /** What an interrupted job is left as. A job that was being cancelled ends as cancelled, with its
    * partial result exactly when it has outputs, and keeps its error; every other one fails with an error
    * that names the previous owner. The event of this runtime says how it ended. */
  predicate Interrupts(job: Job, after: Job, me: Identity, at: Time) {
    && after.status == (if job.status != Cancelling then Failed
                        else if job.outputFileCount > 0 then CancelledWithPartialResult else Cancelled)
    && after.completedAt == Some(at)
    && after.cancelledAt == (if job.status == Cancelling then Some(at) else job.cancelledAt)
    && after.error == (if job.status == Cancelling then job.error else Some(InterruptedByRestart(job.runtime.owner)))
    && after.summary == (if job.status == Cancelling then CancelledByRecovery else Summary.Interrupted)
    && Reports(after.events, RuntimeReconciled, me)
    && (!Reports(job.events, RuntimeReconciled, me) ==>
          after.events == job.events + [Event(RuntimeReconciled, at, Some(me), job.runtime.owner, Some(after.status))])
    && after.runtime.queueState == Ended && after.runtime.leaseExpiresAt == None
    && after.runtime.owner == job.runtime.owner && after.runtime.recovery == Some(Recovered)
    && after.outputFileCount == job.outputFileCount && after.startedAt == job.startedAt && !after.logicalDeleted
  }

  /** What the pass makes of each record: held, terminal and deleted ones are untouched, queued ones are
    * released with nothing else changed, and all other ones are interrupted. */
  lemma {:induction false} PassOutcome(job: Job, me: Identity, at: Time)
    ensures var after := Reconciled(job, me, at);
            && (Terminal(job.status) || job.logicalDeleted || Held(job.runtime, at) ==> after == job)
            && (!Terminal(job.status) && !job.logicalDeleted && !Held(job.runtime, at) ==>
                  if job.status == Queued then RecoveredEntry(after) && after == job.(runtime := after.runtime)
                  else Interrupts(job, after, me, at))
            && (!Inspected(job) ==> after == job)
  {
    StatusIsActiveOrTerminal(job.status);
    if Reconcile(job, me, at).Some? && job.status != Queued {
      AppendReports(job.events,
                    Event(RuntimeReconciled, at, Some(me), job.runtime.owner, Some(Reconciled(job, me, at).status)));
    }
  }

  /** A second pass at the same time, by any runtime, changes no record and adds no event. */
  lemma {:induction false} PassIsIdempotent(jobs: Jobs, me: Identity, again: Identity, at: Time)
    ensures Pass(Pass(jobs, me, at), again, at) == Pass(jobs, me, at)
  {
    forall id | id in jobs
      ensures Reconciled(Reconciled(jobs[id], me, at), again, at) == Reconciled(jobs[id], me, at)
    {
      PassOutcome(jobs[id], me, at);
      StatusIsActiveOrTerminal(Reconciled(jobs[id], me, at).status);
      if RecoveredEntry(Reconciled(jobs[id], me, at)) {
        PassOutcome(Reconciled(jobs[id], me, at), again, at);
      }
    }
  }

  /** After the pass every active record is held by an unexpired lease or is a released queue entry. */
  lemma {:induction false} ActiveAfterPass(jobs: Jobs, me: Identity, at: Time, id: JobId)
    requires id in jobs && Inspected(Pass(jobs, me, at)[id])
    ensures var after := Pass(jobs, me, at)[id];
            (Held(after.runtime, at) && after == jobs[id]) || RecoveredEntry(after)
  {
    PassOutcome(jobs[id], me, at);
    StatusIsActiveOrTerminal(jobs[id].status);
    StatusIsActiveOrTerminal(Reconciled(jobs[id], me, at).status);
  }

  ghost predicate NoRepeatedEvents(events: seq<Event>) {
    forall i, j | 0 <= i < j < |events| :: !SameEvent(events[i], events[j])
  }

  /** Recovery and finalization append at most one event and never repeat one of the same kind and
    * runtime instance. */
  lemma {:induction false} EventsAreNotRepeated(job: Job, me: Identity, at: Time)
    requires NoRepeatedEvents(job.events)
    ensures NoRepeatedEvents(Reconciled(job, me, at).events)
    ensures Finalize(job, me, at).Some? ==> NoRepeatedEvents(Finalize(job, me, at).value.events)
    ensures job.events <= Reconciled(job, me, at).events && |Reconciled(job, me, at).events| <= |job.events| + 1
  {
  }

  /** Requeued ids are new to the runtime and distinct. */
  lemma {:induction false} RequeuedAreNew(jobs: Jobs, known: set<JobId>, found: seq<JobId>, me: Identity, at: Time)
    ensures var ids := Requeued(jobs, known, found, me, at);
            && Distinct(ids)
            && (forall id | id in ids ::
                  id in found && id !in known && id in jobs && RecoveredEntry(Pass(jobs, me, at)[id]))
    decreases |found|
  {
    if found != [] {
      RequeuedAreNew(jobs, known, found[..|found| - 1], me, at);
      var id := found[|found| - 1];
      if id in jobs {
        PassOutcome(jobs[id], me, at);
      }
    }
  }

  /** And every record found queued, not held and unknown to the runtime is requeued: exactly those. */
  lemma {:induction false} RequeuedExactly(jobs: Jobs, known: set<JobId>, found: seq<JobId>, me: Identity, at: Time,
                                           id: JobId)
    ensures id in Requeued(jobs, known, found, me, at) <==>
              && id in found && id in jobs && id !in known
              && jobs[id].status == Queued && !jobs[id].logicalDeleted && !Held(jobs[id].runtime, at)
    decreases |found|
  {
    if found != [] {
      RequeuedExactly(jobs, known, found[..|found| - 1], me, at, id);
      assert found == found[..|found| - 1] + [found[|found| - 1]];
    }
  }
}
