/** The local scheduler of one runtime: the queue, the active set and the drain loop, cut at every
  * await (backend/src/queue/jobQueue.js, `drainQueue`, `enqueueJob`, `executeClaimedJob`,
  * `reconcileQueue`, `cancelQueuedJob`). Transactions and event publishing are taken not to throw. */
module DrainScheduler {
  import opened Wrappers

  type JobId = string

  /** A cancellation remembers the index of its job's entry. History: `kept` until an entry at or before
    * that index leaves the queue. */
  datatype Cancelling = Cancelling(id: JobId, index: nat, kept: bool)

  /** The scheduler and everything suspended in it. `scheduled` drain microtasks are pending, `pushed`
    * enqueues have pushed but not yet scheduled a drain, `reconciling` passes are under way, `finished`
    * executions still owe their drain call, `running` are the executions in flight, numbered by their
    * attempt, `claiming` is the drain loop suspended on a claim, `cancels` the cancellations of locally
    * queued jobs that wait for their transaction. History: `pushes` all ids ever queued and not cut out
    * again, `attempts` all ids ever shifted for a claim. */
  datatype Sched = Sched(
    queue: seq<JobId>,
    active: set<JobId>,
    known: set<JobId>,
    draining: bool,
    requested: bool,
    claiming: Option<JobId>,
    scheduled: nat,
    pushed: nat,
    reconciling: nat,
    finished: nat,
    running: map<nat, JobId>,
    cancels: map<nat, Cancelling>,
    pushes: seq<JobId>,
    attempts: seq<JobId>)

  const IDLE := Sched([], {}, {}, false, false, None, 0, 0, 0, 0, map[], map[], [], [])

  datatype Event =
    | EnqueuePersisted(id: JobId)   // the queued state is stored: push
    | EnqueuePublished              // the event is published: schedule a drain
    | ReconcileStarted
    | ReconcileFound(id: JobId)     // a committed recovery of a queued record
    | ReconcileEnded
    | DrainMicrotask
    | ClaimAnswered(claimed: bool)
    | ExecutionEnded(exec: nat)
    | CompletionMicrotask
    | CancelStarted(call: nat, id: JobId)
    | CancelAnswered(call: nat, running: bool)  // `running` for both answers that leave the queue alone

  function Limit(configured: int): (max: nat)
    ensures max >= 1 && max >= configured && (max == 1 || max == configured)
  {
    if configured > 1 then configured else 1
  }

  function Push(s: Sched, id: JobId): Sched {
    s.(known := s.known + {id}, queue := s.queue + [id], pushes := s.pushes + [id])
  }

  function Without<T>(items: seq<T>, i: nat): seq<T> {
    if i < |items| then items[..i] + items[i + 1..] else items
  }

  /** An entry at `from` has left the queue. */
  function Moved(cancels: map<nat, Cancelling>, from: nat): map<nat, Cancelling> {
    map c | c in cancels :: if cancels[c].index >= from then cancels[c].(kept := false) else cancels[c]
  }

  function IndexOf(queue: seq<JobId>, id: JobId): (i: nat)
    requires id in queue
    ensures i < |queue| && queue[i] == id && id !in queue[..i]
  {
    if queue[0] == id then 0 else 1 + IndexOf(queue[1..], id)
  }

  lemma {:induction false} FirstIndex(queue: seq<JobId>, id: JobId, i: nat)
    requires i < |queue| && queue[i] == id && id !in queue[..i]
    ensures IndexOf(queue, id) == i
  {
    assert queue[IndexOf(queue, id)] == id;
  }

  /** `queuedJobIds.splice(index, 1)`, which removes whatever is at the index by now. */
  function Splice(s: Sched, index: nat): Sched {
    if index < |s.queue| then
      s.(queue := Without(s.queue, index), pushes := Without(s.pushes, |s.attempts| + index),
         cancels := Moved(s.cancels, index))
    else s
  }

  /** The end of a local cancellation of a job that is not running. */
  function CutOut(s: Sched, call: nat): Sched
    requires call in s.cancels
  {
    var c := s.cancels[call];
    Splice(s.(cancels := s.cancels - {call}), c.index).(known := s.known - {c.id})
  }

  /** The drain loop from its inner condition to the next claim or to its end. */
  function Continue(max: nat, s: Sched): Sched {
    if |s.active| < max && s.queue != [] then
      s.(claiming := Some(s.queue[0]), queue := s.queue[1..], attempts := s.attempts + [s.queue[0]],
         cancels := Moved(s.cancels, 0))
    else
      s.(draining := false, requested := false)
  }

  function DrainCall(max: nat, s: Sched): Sched {
    if s.draining then s.(requested := true)
    else Continue(max, s.(draining := true, requested := false))
  }

  function Next(max: nat, s: Sched, event: Event): Sched {
    match event
    case EnqueuePersisted(id) => Push(s, id).(pushed := s.pushed + 1)
    case EnqueuePublished =>
      if s.pushed == 0 then s else s.(pushed := s.pushed - 1, scheduled := s.scheduled + 1)
    case ReconcileStarted => s.(reconciling := s.reconciling + 1)
    case ReconcileFound(id) =>
      if s.reconciling == 0 || id in s.known then s else Push(s, id)
    case ReconcileEnded =>
      if s.reconciling == 0 then s else s.(reconciling := s.reconciling - 1, scheduled := s.scheduled + 1)
    case DrainMicrotask =>
      if s.scheduled == 0 then s else DrainCall(max, s.(scheduled := s.scheduled - 1))
    case ClaimAnswered(claimed) =>
      if s.claiming.None? then s
      else
        var id := s.claiming.value;
        var resumed := s.(claiming := None);
        Continue(max, if claimed then resumed.(active := s.active + {id}, running := s.running[|s.attempts| := id])
                      else resumed.(known := s.known - {id}))
    case ExecutionEnded(exec) =>
      if exec !in s.running then s
      else
        var id := s.running[exec];
        s.(active := s.active - {id}, known := s.known - {id}, running := s.running - {exec},
          finished := s.finished + 1)
    case CompletionMicrotask =>
      if s.finished == 0 then s else DrainCall(max, s.(finished := s.finished - 1))
    case CancelStarted(call, id) =>
      if call in s.cancels || id !in s.queue then s
      else s.(cancels := s.cancels[call := Cancelling(id, IndexOf(s.queue, id), true)])
    case CancelAnswered(call, running) =>
      if call !in s.cancels then s
      else if running then s.(cancels := s.cancels - {call})
      else CutOut(s, call)
  }

  /** A drain is under way, scheduled, or owed by an unfinished enqueue, recovery pass or completion. */
  predicate DrainComing(s: Sched) {
    s.draining || s.scheduled > 0 || s.pushed > 0 || s.reconciling > 0 || s.finished > 0
  }

  predicate EntryAt(queue: seq<JobId>, c: Cancelling) {
    c.index < |queue| && queue[c.index] == c.id
  }

  /** The last clause: a cancellation finds its entry where it remembers it as long as no entry at or
    * before it has left the queue. */
  ghost predicate Inv(max: nat, s: Sched) {
    && |s.active| <= max
    && (s.draining <==> s.claiming.Some?)
    && (s.claiming.Some? ==> |s.active| < max)
    && (s.queue != [] && |s.active| < max ==> DrainComing(s))
    && s.attempts + s.queue == s.pushes
    && (forall c | c in s.cancels && s.cancels[c].kept :: EntryAt(s.queue, s.cancels[c]))
  }

  function Execute(max: nat, events: seq<Event>): Sched
    decreases |events|
  {
    if events == [] then IDLE
    else Next(max, Execute(max, events[..|events| - 1]), events[|events| - 1])
  }

  lemma {:induction false} AddOne(active: set<JobId>, id: JobId)
    ensures |active + {id}| <= |active| + 1 && |active - {id}| <= |active|
  {
    if id in active {
      assert active + {id} == active;
      assert |active - {id}| == |active| - 1;
    } else {
      assert active - {id} == active;
    }
  }

  lemma {:induction false} WithoutKeepsOrder(attempts: seq<JobId>, queue: seq<JobId>, i: nat)
    requires i < |queue|
    ensures Without(attempts + queue, |attempts| + i) == attempts + Without(queue, i)
  {
  }

  lemma {:induction false} SpliceKeepsInv(max: nat, s: Sched, index: nat)
    requires Inv(max, s)
    ensures Inv(max, Splice(s, index))
  {
    var s' := Splice(s, index);
    if index < |s.queue| {
      WithoutKeepsOrder(s.attempts, s.queue, index);
      forall c | c in s'.cancels && s'.cancels[c].kept ensures EntryAt(s'.queue, s'.cancels[c]) {
        assert EntryAt(s.queue, s.cancels[c]);
      }
    }
  }

  lemma {:induction false} CutOutKeepsInv(max: nat, s: Sched, call: nat)
    requires Inv(max, s) && call in s.cancels
    ensures Inv(max, CutOut(s, call))
  {
    SpliceKeepsInv(max, s.(cancels := s.cancels - {call}), s.cancels[call].index);
  }

  lemma {:induction false} AnswerKeepsInv(max: nat, s: Sched, claimed: bool)
    requires Inv(max, s)
    ensures Inv(max, Next(max, s, ClaimAnswered(claimed)))
  {
    if s.claiming.Some? {
      AddOne(s.active, s.claiming.value);
      ShiftKeepsOrder(s);
    }
  }

  lemma {:induction false} MicrotaskKeepsInv(max: nat, s: Sched, event: Event)
    requires Inv(max, s) && (event.DrainMicrotask? || event.CompletionMicrotask?)
    ensures Inv(max, Next(max, s, event))
  {
    ShiftKeepsOrder(s);
  }

  lemma {:induction false} NextKeepsInv(max: nat, s: Sched, event: Event)
    requires Inv(max, s)
    ensures Inv(max, Next(max, s, event))
  {
    match event
    case ClaimAnswered(claimed) => AnswerKeepsInv(max, s, claimed);
    case DrainMicrotask => MicrotaskKeepsInv(max, s, event);
    case CompletionMicrotask => MicrotaskKeepsInv(max, s, event);
    case ExecutionEnded(exec) =>
      if exec in s.running {
        AddOne(s.active, s.running[exec]);
      }
    case CancelAnswered(call, running) =>
      if call in s.cancels && !running {
        CutOutKeepsInv(max, s, call);
      }
    case _ => ShiftKeepsOrder(s);
  }

  lemma {:induction false} ShiftKeepsOrder(s: Sched)
    ensures s.queue != [] ==> (s.attempts + [s.queue[0]]) + s.queue[1..] == s.attempts + s.queue
    ensures forall id :: s.attempts + (s.queue + [id]) == (s.attempts + s.queue) + [id]
  {
  }

  /** In every interleaving the active set stays within the limit, at most one drain loop runs (it is
    * the one suspended on a claim), claims are attempted once per push that no cancellation cuts out, in
    * exactly the order of the pushes, and a waiting job with a free slot always has a drain coming. */
  lemma {:induction false} SchedulerIsSound(max: nat, events: seq<Event>)
    ensures Inv(max, Execute(max, events))
    decreases |events|
  {
    if events != [] {
      SchedulerIsSound(max, events[..|events| - 1]);
      NextKeepsInv(max, Execute(max, events[..|events| - 1]), events[|events| - 1]);
    }
  }

  // ---------- one entry per job ----------

  /** Every job the runtime knows has one entry: once in the queue, in the claim under way, or in
    * execution; and no entry is unknown. */
  ghost predicate OneEach(s: Sched) {
    && (forall i, j | 0 <= i < j < |s.queue| :: s.queue[i] != s.queue[j])
    && (forall id | id in s.queue :: id !in s.active && s.claiming != Some(id))
    && (s.claiming.Some? ==> s.claiming.value !in s.active)
    && (forall id :: id in s.known <==> id in s.queue || id in s.active || s.claiming == Some(id))
    && (forall e | e in s.running :: s.running[e] in s.active && e < |s.attempts| + (if s.claiming.Some? then 0 else 1))
    && (forall d, e | d in s.running && e in s.running && s.running[d] == s.running[e] :: d == e)
  }

  /** An enqueue that has passed its check of the known ids before another path made the id known. */
  predicate LandsOnKnown(s: Sched, event: Event) {
    event.EnqueuePersisted? && event.id in s.known
  }

  lemma {:induction false} PushKeepsOneEach(s: Sched, id: JobId)
    requires OneEach(s)
    ensures OneEach(Push(s, id)) <==> id !in s.known
  {
    var s' := Push(s, id);
    if id in s.queue {
      var i :| 0 <= i < |s.queue| && s.queue[i] == id;
      assert s'.queue[i] == s'.queue[|s.queue|];
    } else if id in s.known {
      assert id in s'.queue by { assert s'.queue[|s.queue|] == id; }
    }
  }

  lemma {:induction false} ContinueKeepsOneEach(max: nat, s: Sched)
    requires OneEach(s) && s.claiming.None?
    ensures OneEach(Continue(max, s))
  {
    if |s.active| < max && s.queue != [] {
      assert s.queue == [s.queue[0]] + s.queue[1..];
    }
  }

  lemma {:induction false} ClaimKeepsOneEach(max: nat, s: Sched, claimed: bool)
    requires OneEach(s) && s.claiming.Some?
    ensures OneEach(Next(max, s, ClaimAnswered(claimed)))
  {
    var id, resumed := s.claiming.value, s.(claiming := None);
    var answered := if claimed then resumed.(active := s.active + {id}, running := s.running[|s.attempts| := id])
                    else resumed.(known := s.known - {id});
    assert OneEach(answered);
    ContinueKeepsOneEach(max, answered);
  }

  lemma {:induction false} DrainKeepsOneEach(max: nat, s: Sched)
    requires OneEach(s) && (s.claiming.Some? ==> s.draining)
    ensures OneEach(DrainCall(max, s))
  {
    if !s.draining {
      ContinueKeepsOneEach(max, s.(draining := true, requested := false));
    }
  }

  lemma {:induction false} EndKeepsOneEach(max: nat, s: Sched, exec: nat)
    requires OneEach(s)
    ensures OneEach(Next(max, s, ExecutionEnded(exec)))
  {
  }

  lemma {:induction false} EnqueueKeepsOneEach(max: nat, s: Sched, id: JobId)
    requires OneEach(s)
    ensures OneEach(Next(max, s, EnqueuePersisted(id))) <==> id !in s.known
  {
    PushKeepsOneEach(s, id);
    CountersDoNotMatter(Push(s, id), Next(max, s, EnqueuePersisted(id)));
  }

  lemma {:induction false} FoundKeepsOneEach(max: nat, s: Sched, id: JobId)
    requires OneEach(s)
    ensures OneEach(Next(max, s, ReconcileFound(id)))
  {
    PushKeepsOneEach(s, id);
  }

  /** A cut takes the entry at the index and the known id; both must be the same job's. */
  predicate CutsAmiss(s: Sched, c: Cancelling) {
    if c.index < |s.queue| then s.queue[c.index] != c.id else c.id in s.known
  }

  /** A cancellation whose cut takes another job's entry, or no entry while its own job is known. */
  predicate MissesEntry(s: Sched, event: Event) {
    event.CancelAnswered? && !event.running && event.call in s.cancels && CutsAmiss(s, s.cancels[event.call])
  }

  lemma {:induction false} WithoutHas(queue: seq<JobId>, i: nat, id: JobId)
    requires i < |queue| && forall j, k | 0 <= j < k < |queue| :: queue[j] != queue[k]
    ensures id in Without(queue, i) <==> id in queue && id != queue[i]
    ensures var rest := Without(queue, i); forall j, k | 0 <= j < k < |rest| :: rest[j] != rest[k]
  {
    var rest := Without(queue, i);
    if id in queue && id != queue[i] {
      var j :| 0 <= j < |queue| && queue[j] == id;
      assert rest[if j < i then j else j - 1] == id;
    }
  }

  lemma {:induction false} SpliceKeepsOneEach(s: Sched, c: Cancelling)
    requires OneEach(s)
    ensures OneEach(Splice(s, c.index).(known := s.known - {c.id})) <==> !CutsAmiss(s, c)
  {
    var s' := Splice(s, c.index).(known := s.known - {c.id});
    if c.index < |s.queue| {
      forall id ensures id in s'.queue <==> id in s.queue && id != s.queue[c.index] {
        WithoutHas(s.queue, c.index, id);
      }
      WithoutHas(s.queue, c.index, c.id);
      var taken := s.queue[c.index];
      if taken != c.id {
        assert taken in s'.known && taken !in s'.queue;
      }
    }
  }

  lemma {:induction false} CutKeepsOneEach(s: Sched, call: nat)
    requires OneEach(s) && call in s.cancels
    ensures OneEach(CutOut(s, call)) <==> !CutsAmiss(s, s.cancels[call])
  {
    var waiting := s.(cancels := s.cancels - {call});
    CountersDoNotMatter(s, waiting);
    SpliceKeepsOneEach(waiting, s.cancels[call]);
  }

  lemma {:induction false} CountersDoNotMatter(s: Sched, s': Sched)
    requires s'.queue == s.queue && s'.active == s.active && s'.known == s.known && s'.claiming == s.claiming
    requires s'.running == s.running && s'.attempts == s.attempts
    ensures OneEach(s') <==> OneEach(s)
  {
  }

  lemma {:induction false} AnswerCutsOneEach(max: nat, s: Sched, call: nat, running: bool)
    requires OneEach(s)
    ensures OneEach(Next(max, s, CancelAnswered(call, running))) <==> !MissesEntry(s, CancelAnswered(call, running))
  {
    if call in s.cancels && !running {
      CutKeepsOneEach(s, call);
    } else {
      CountersDoNotMatter(s, Next(max, s, CancelAnswered(call, running)));
    }
  }

  /** Events that touch no entry. */
  lemma {:induction false} OthersKeepOneEach(max: nat, s: Sched, event: Event)
    requires OneEach(s)
    requires event.EnqueuePublished? || event.ReconcileStarted? || event.ReconcileEnded? || event.CancelStarted?
    ensures OneEach(Next(max, s, event))
  {
    CountersDoNotMatter(s, Next(max, s, event));
  }

  lemma {:induction false} MicrotaskKeepsOneEach(max: nat, s: Sched, event: Event)
    requires OneEach(s) && (s.claiming.Some? ==> s.draining) && (event.DrainMicrotask? || event.CompletionMicrotask?)
    ensures OneEach(Next(max, s, event))
  {
    if event.DrainMicrotask? && s.scheduled > 0 {
      CountersDoNotMatter(s, s.(scheduled := s.scheduled - 1));
      DrainKeepsOneEach(max, s.(scheduled := s.scheduled - 1));
    } else if event.CompletionMicrotask? && s.finished > 0 {
      CountersDoNotMatter(s, s.(finished := s.finished - 1));
      DrainKeepsOneEach(max, s.(finished := s.finished - 1));
    }
  }

  lemma {:induction false} AnswerKeepsOneEach(max: nat, s: Sched, claimed: bool)
    requires OneEach(s)
    ensures OneEach(Next(max, s, ClaimAnswered(claimed)))
  {
    if s.claiming.Some? {
      ClaimKeepsOneEach(max, s, claimed);
    }
  }

  /** One step keeps one entry per job, except exactly the enqueue that lands on a known id and the
    * cancellation that misses its entry. */
  lemma {:induction false} NextKeepsOneEach(max: nat, s: Sched, event: Event)
    requires Inv(max, s) && OneEach(s)
    ensures OneEach(Next(max, s, event)) <==> !LandsOnKnown(s, event) && !MissesEntry(s, event)
  {
    match event
    case EnqueuePersisted(id) => EnqueueKeepsOneEach(max, s, id);
    case ReconcileFound(id) => FoundKeepsOneEach(max, s, id);
    case ExecutionEnded(exec) => EndKeepsOneEach(max, s, exec);
    case ClaimAnswered(claimed) => AnswerKeepsOneEach(max, s, claimed);
    case DrainMicrotask => MicrotaskKeepsOneEach(max, s, event);
    case CompletionMicrotask => MicrotaskKeepsOneEach(max, s, event);
    case CancelAnswered(call, running) => AnswerCutsOneEach(max, s, call, running);
    case _ => OthersKeepOneEach(max, s, event);
  }

  /** A cancellation that cuts after an entry at or before its own has left the queue. */
  predicate CutsLate(s: Sched, event: Event) {
    event.CancelAnswered? && !event.running && event.call in s.cancels && !s.cancels[event.call].kept
  }

  /** No enqueue of the run lands on a known id, and no cancellation cuts late. */
  ghost predicate SeparateSteps(max: nat, events: seq<Event>) {
    forall i | 0 <= i < |events| ::
      !LandsOnKnown(Execute(max, events[..i]), events[i]) && !CutsLate(Execute(max, events[..i]), events[i])
  }

  lemma {:induction false} SeparateStepKeepsOneEach(max: nat, s: Sched, event: Event)
    requires Inv(max, s) && OneEach(s) && !LandsOnKnown(s, event) && !CutsLate(s, event)
    ensures OneEach(Next(max, s, event))
  {
    if event.CancelAnswered? && event.call in s.cancels && s.cancels[event.call].kept {
      assert EntryAt(s.queue, s.cancels[event.call]);
    }
    NextKeepsOneEach(max, s, event);
  }

  /** In such runs no job is queued, claimed or executed twice at a time by this runtime, and none is
    * known without an entry. */
  lemma {:induction false} OneEntryPerJob(max: nat, events: seq<Event>)
    requires SeparateSteps(max, events)
    ensures OneEach(Execute(max, events))
    decreases |events|
  {
    if events != [] {
      var n := |events| - 1;
      assert forall i | 0 <= i < n :: events[..n][..i] == events[..i];
      OneEntryPerJob(max, events[..n]);
      SchedulerIsSound(max, events[..n]);
      SeparateStepKeepsOneEach(max, Execute(max, events[..n]), events[n]);
    }
  }

  // ---------- executions are granted claims ----------

  /** The executions a run has started, read off its claims and their answers: the claim that is pending
    * when a grant arrives starts one, under the number of that claim. */
  function Granted(max: nat, events: seq<Event>): map<nat, JobId>
    decreases |events|
  {
    if events == [] then map[]
    else
      var n := |events| - 1;
      var s, before := Execute(max, events[..n]), Granted(max, events[..n]);
      if events[n] == ClaimAnswered(true) && s.claiming.Some? then before[|s.attempts| := s.claiming.value] else before
  }

  /** The executions that have ended since they were started. */
  function Ended(max: nat, events: seq<Event>): set<nat>
    decreases |events|
  {
    if events == [] then {}
    else
      var n := |events| - 1;
      Ended(max, events[..n])
      + if events[n].ExecutionEnded? && events[n].exec in Granted(max, events[..n]) then {events[n].exec} else {}
  }

  lemma {:induction false} OneMore(max: nat, events: seq<Event>, event: Event)
    ensures Execute(max, events + [event]) == Next(max, Execute(max, events), event)
  {
    assert (events + [event])[..|events|] == events;
  }

  /** What is running is granted and not ended; grants carry the numbers of claims already answered, and
    * each names the job of its claim. */
  ghost predicate RunsGrants(s: Sched, granted: map<nat, JobId>, ended: set<nat>) {
    && s.running == granted - ended && ended <= granted.Keys
    && (s.claiming.Some? ==> s.attempts != [] && s.attempts[|s.attempts| - 1] == s.claiming.value)
    && forall e | e in granted ::
         1 <= e <= |s.attempts| && granted[e] == s.attempts[e - 1] && (s.claiming.Some? ==> e < |s.attempts|)
  }

  /** The loop makes one more claim or none. */
  predicate ClaimsOn(s: Sched, s': Sched) {
    || (s'.attempts == s.attempts && (s'.claiming.Some? ==> s'.claiming == s.claiming))
    || (s'.claiming.Some? && s'.attempts == s.attempts + [s'.claiming.value])
  }

  lemma {:induction false} ContinueClaims(max: nat, s: Sched)
    ensures ClaimsOn(s, Continue(max, s)) && Continue(max, s).running == s.running
    ensures ClaimsOn(s, DrainCall(max, s)) && DrainCall(max, s).running == s.running
  {
  }

  /** What an event does to executions: a grant of a pending claim starts one, an end takes it away, and
    * nothing else touches them. */
  function RunningAfter(s: Sched, event: Event): map<nat, JobId> {
    if event == ClaimAnswered(true) && s.claiming.Some? then s.running[|s.attempts| := s.claiming.value]
    else if event.ExecutionEnded? then s.running - {event.exec}
    else s.running
  }

  lemma {:induction false} AnswerExecutions(max: nat, s: Sched, claimed: bool)
    ensures var s' := Next(max, s, ClaimAnswered(claimed));
            && s'.running == RunningAfter(s, ClaimAnswered(claimed))
            && ClaimsOn(if s.claiming.Some? then s.(claiming := None) else s, s')
  {
    if s.claiming.Some? {
      var resumed := s.(claiming := None);
      ContinueClaims(max, if claimed then resumed.(active := s.active + {s.claiming.value},
                                                   running := s.running[|s.attempts| := s.claiming.value])
                          else resumed.(known := s.known - {s.claiming.value}));
    }
  }

  lemma {:induction false} NextExecutions(max: nat, s: Sched, event: Event)
    ensures Next(max, s, event).running == RunningAfter(s, event)
    ensures ClaimsOn(if event.ClaimAnswered? then s.(claiming := None) else s, Next(max, s, event))
            || (event.ClaimAnswered? && Next(max, s, event) == s)
  {
    match event
    case ClaimAnswered(claimed) => AnswerExecutions(max, s, claimed);
    case DrainMicrotask => ContinueClaims(max, s.(scheduled := if s.scheduled > 0 then s.scheduled - 1 else 0));
    case CompletionMicrotask => ContinueClaims(max, s.(finished := if s.finished > 0 then s.finished - 1 else 0));
    case ExecutionEnded(exec) => assert exec !in s.running ==> s.running - {exec} == s.running;
    case _ =>
  }

  lemma {:induction false} GrantStarts(s: Sched, s': Sched, granted: map<nat, JobId>, ended: set<nat>)
    requires RunsGrants(s, granted, ended) && s.claiming.Some? && ClaimsOn(s.(claiming := None), s')
    requires s'.running == s.running[|s.attempts| := s.claiming.value]
    ensures RunsGrants(s', granted[|s.attempts| := s.claiming.value], ended)
  {
    assert |s.attempts| !in granted && |s.attempts| !in ended;
    assert granted[|s.attempts| := s.claiming.value] - ended == (granted - ended)[|s.attempts| := s.claiming.value];
  }

  lemma {:induction false} EndEnds(s: Sched, s': Sched, granted: map<nat, JobId>, ended: set<nat>, exec: nat)
    requires RunsGrants(s, granted, ended) && ClaimsOn(s, s') && s'.running == s.running - {exec}
    ensures RunsGrants(s', granted, ended + if exec in granted then {exec} else {})
  {
    assert (granted - ended) - {exec} == granted - (ended + if exec in granted then {exec} else {});
  }

  lemma {:induction false} OthersGoOn(s: Sched, s': Sched, granted: map<nat, JobId>, ended: set<nat>)
    requires RunsGrants(s, granted, ended) && s'.running == s.running
    requires ClaimsOn(s, s') || ClaimsOn(s.(claiming := None), s')
    ensures RunsGrants(s', granted, ended)
  {
  }

  lemma {:induction false} GrantedOneMore(max: nat, events: seq<Event>, event: Event)
    ensures var s, granted := Execute(max, events), Granted(max, events);
            && Granted(max, events + [event]) ==
                 (if event == ClaimAnswered(true) && s.claiming.Some? then granted[|s.attempts| := s.claiming.value]
                  else granted)
            && Ended(max, events + [event]) ==
                 Ended(max, events) + (if event.ExecutionEnded? && event.exec in granted then {event.exec} else {})
  {
    assert (events + [event])[..|events|] == events;
  }

  lemma {:induction false} NextKeepsGrants(max: nat, events: seq<Event>, event: Event)
    requires RunsGrants(Execute(max, events), Granted(max, events), Ended(max, events))
    ensures var longer := events + [event];
            RunsGrants(Execute(max, longer), Granted(max, longer), Ended(max, longer))
  {
    var s, granted, ended := Execute(max, events), Granted(max, events), Ended(max, events);
    OneMore(max, events, event);
    GrantedOneMore(max, events, event);
    NextExecutions(max, s, event);
    if event == ClaimAnswered(true) && s.claiming.Some? {
      GrantStarts(s, Next(max, s, event), granted, ended);
    } else if event.ExecutionEnded? {
      EndEnds(s, Next(max, s, event), granted, ended, event.exec);
    } else {
      OthersGoOn(s, Next(max, s, event), granted, ended);
    }
  }

  /** In every interleaving the executions in flight are exactly the granted claims that have not ended,
    * each of the job its claim was made for: a refused claim starts none, a granted one is not lost. */
  lemma {:induction false} ExecutionsAreGrants(max: nat, events: seq<Event>)
    ensures var s := Execute(max, events);
            && s.running == Granted(max, events) - Ended(max, events)
            && forall e | e in s.running :: 1 <= e <= |s.attempts| && s.running[e] == s.attempts[e - 1]
    ensures RunsGrants(Execute(max, events), Granted(max, events), Ended(max, events))
    decreases |events|
  {
    if events != [] {
      var n := |events| - 1;
      ExecutionsAreGrants(max, events[..n]);
      NextKeepsGrants(max, events[..n], events[n]);
      assert events == events[..n] + [events[n]];
    }
  }

  /** Slots are taken by executions only. */
  ghost predicate ActiveRuns(s: Sched) {
    forall id | id in s.active :: exists e | e in s.running :: s.running[e] == id
  }

  lemma {:induction false} NextActive(max: nat, s: Sched, event: Event)
    ensures Next(max, s, event).active ==
              if event == ClaimAnswered(true) && s.claiming.Some? then s.active + {s.claiming.value}
              else if event.ExecutionEnded? && event.exec in s.running then s.active - {s.running[event.exec]}
              else s.active
  {
  }

  lemma {:induction false} NextKeepsActiveRuns(max: nat, s: Sched, event: Event)
    requires ActiveRuns(s)
    requires |s.attempts| !in s.running || s.claiming.None?
    ensures ActiveRuns(Next(max, s, event))
  {
    var s' := Next(max, s, event);
    NextExecutions(max, s, event);
    NextActive(max, s, event);
    forall id | id in s'.active
      ensures exists e | e in s'.running :: s'.running[e] == id
    {
      if id in s.active {
        var e :| e in s.running && s.running[e] == id;
        assert e in s'.running && s'.running[e] == id;
      } else {
        assert s'.running[|s.attempts|] == id;
      }
    }
  }

  /** In every run the active set is within the jobs in execution; in separate runs it is all of them. */
  lemma {:induction false} ActiveIsInExecution(max: nat, events: seq<Event>)
    ensures ActiveRuns(Execute(max, events))
    ensures SeparateSteps(max, events) ==>
              var s := Execute(max, events);
              forall e | e in s.running :: s.running[e] in s.active
    decreases |events|
  {
    if events != [] {
      var n := |events| - 1;
      ActiveIsInExecution(max, events[..n]);
      ExecutionsAreGrants(max, events[..n]);
      NextKeepsActiveRuns(max, Execute(max, events[..n]), events[n]);
    }
    if SeparateSteps(max, events) {
      OneEntryPerJob(max, events);
    }
  }

  // ---------- what the two missing steps do ----------

  /** The job is known, so neither an enqueue nor a recovery pass will queue it again, but it is not
    * queued, claimed or executed, and no cancellation of it is under way. */
  ghost predicate Stranded(s: Sched, id: JobId) {
    && id in s.known && id !in s.queue && id !in s.active && s.claiming != Some(id)
    && (forall e | e in s.running :: s.running[e] != id)
    && (forall c | c in s.cancels :: s.cancels[c].id != id)
  }

  lemma {:induction false} DrainKeepsStranded(max: nat, s: Sched, id: JobId)
    requires Stranded(s, id)
    ensures Stranded(DrainCall(max, s), id)
    ensures Stranded(Continue(max, s), id)
  {
  }

  lemma {:induction false} CutKeepsStranded(s: Sched, call: nat, id: JobId)
    requires Stranded(s, id) && call in s.cancels
    ensures Stranded(CutOut(s, call), id)
  {
  }

  lemma {:induction false} AnswerKeepsStranded(max: nat, s: Sched, claimed: bool, id: JobId)
    requires Stranded(s, id)
    ensures Stranded(Next(max, s, ClaimAnswered(claimed)), id)
  {
    if s.claiming.Some? {
      var resumed := s.(claiming := None);
      DrainKeepsStranded(max, if claimed then resumed.(active := s.active + {s.claiming.value},
                                                       running := s.running[|s.attempts| := s.claiming.value])
                              else resumed.(known := s.known - {s.claiming.value}), id);
    }
  }

  lemma {:induction false} EndKeepsStranded(max: nat, s: Sched, exec: nat, id: JobId)
    requires Stranded(s, id)
    ensures Stranded(Next(max, s, ExecutionEnded(exec)), id)
  {
  }

  lemma {:induction false} NextKeepsStranded(max: nat, s: Sched, event: Event, id: JobId)
    requires Stranded(s, id) && event != EnqueuePersisted(id)
    ensures Stranded(Next(max, s, event), id)
  {
    match event
    case ClaimAnswered(claimed) => AnswerKeepsStranded(max, s, claimed, id);
    case ExecutionEnded(exec) => EndKeepsStranded(max, s, exec, id);
    case DrainMicrotask =>
      if s.scheduled > 0 {
        DrainKeepsStranded(max, s.(scheduled := s.scheduled - 1), id);
      }
    case CompletionMicrotask =>
      if s.finished > 0 {
        DrainKeepsStranded(max, s.(finished := s.finished - 1), id);
      }
    case CancelAnswered(call, running) =>
      if call in s.cancels && !running {
        CutKeepsStranded(s, call, id);
      }
    case _ =>
  }

  /** Such a job stays where it is in every continuation, unless an enqueue that had passed its check
    * before the job became known lands on it. */
  lemma {:induction false} StrandedForGood(max: nat, before: seq<Event>, events: seq<Event>, id: JobId)
    requires Stranded(Execute(max, before), id) && EnqueuePersisted(id) !in events
    ensures Stranded(Execute(max, before + events), id)
    decreases |events|
  {
    if events == [] {
      assert before + events == before;
    } else {
      var next := before + [events[0]];
      assert next[..|before|] == before && before + events == next + events[1..];
      NextKeepsStranded(max, Execute(max, before), events[0], id);
      StrandedForGood(max, next, events[1..], id);
    }
  }

  function Two(a: Event, b: Event): seq<Event> {
    [] + [a] + [b]
  }

  lemma {:induction false} TwoSteps(max: nat, a: Event, b: Event)
    ensures Execute(max, Two(a, b)) == Next(max, Next(max, IDLE, a), b)
  {
    OneMore(max, [], a);
    OneMore(max, [] + [a], b);
  }

  /** Two jobs are queued, the first is being cancelled and a drain is scheduled. */
  function CancellingFirst(first: JobId, second: JobId): seq<Event> {
    Two(EnqueuePersisted(first), EnqueuePersisted(second)) + [CancelStarted(0, first)] + [EnqueuePublished]
  }

  lemma {:induction false} PairState(max: nat, first: JobId, second: JobId)
    ensures Next(max, Next(max, IDLE, EnqueuePersisted(first)), EnqueuePersisted(second)) ==
              IDLE.(queue := [first] + [second], known := {first, second}, pushed := 2, pushes := [first] + [second])
  {
    assert [] + [first] == [first];
    assert {} + {first} + {second} == {first, second};
  }

  lemma {:induction false} CancellingFirstState(max: nat, first: JobId, second: JobId)
    ensures var pair := [first] + [second];
            Execute(max, CancellingFirst(first, second)) ==
              IDLE.(queue := pair, known := {first, second}, scheduled := 1, pushed := 1,
                    cancels := map[0 := Cancelling(first, 0, true)], pushes := pair)
  {
    var run := Two(EnqueuePersisted(first), EnqueuePersisted(second));
    TwoSteps(max, EnqueuePersisted(first), EnqueuePersisted(second));
    PairState(max, first, second);
    FirstIndex([first] + [second], first, 0);
    OneMore(max, run, CancelStarted(0, first));
    OneMore(max, run + [CancelStarted(0, first)], EnqueuePublished);
  }

  /** A run that misses: while the cancellation of the first of two queued jobs waits for its transaction,
    * the drain loop shifts that job; the cut then takes the second job's entry and strands it. */
  lemma {:induction false} LateCutStrands(max: nat, first: JobId, second: JobId)
    requires max >= 1 && first != second
    ensures var shifted := CancellingFirst(first, second) + [DrainMicrotask];
            && MissesEntry(Execute(max, shifted), CancelAnswered(0, false))
            && !OneEach(Execute(max, shifted + [CancelAnswered(0, false)]))
            && Stranded(Execute(max, shifted + [CancelAnswered(0, false)]), second)
  {
    var run := CancellingFirst(first, second);
    CancellingFirstState(max, first, second);
    OneMore(max, run, DrainMicrotask);
    OneMore(max, run + [DrainMicrotask], CancelAnswered(0, false));
    var s := Execute(max, run + [DrainMicrotask]);
    assert s.queue == [second] && s.claiming == Some(first) && s.cancels == map[0 := Cancelling(first, 0, false)];
  }

  /** A run that lands: a recovery pass queues the job between the check of an enqueue and its push. */
  lemma {:induction false} LateEnqueueDoubles(max: nat, id: JobId)
    ensures var found := Two(ReconcileStarted, ReconcileFound(id));
            && LandsOnKnown(Execute(max, found), EnqueuePersisted(id))
            && !OneEach(Execute(max, found + [EnqueuePersisted(id)]))
            && var queue := Execute(max, found + [EnqueuePersisted(id)]).queue;
               |queue| == 2 && queue[0] == queue[1] == id
  {
    var found := Two(ReconcileStarted, ReconcileFound(id));
    TwoSteps(max, ReconcileStarted, ReconcileFound(id));
    OneMore(max, found, EnqueuePersisted(id));
    var queue := Push(Execute(max, found), id).queue;
    assert |queue| == 2 && queue[0] == queue[1] == id;
  }

  /** When nothing is suspended or owed any more, every waiting job waits only for a free slot. */
  lemma {:induction false} QuietMeansFullOrEmpty(max: nat, events: seq<Event>)
    requires !DrainComing(Execute(max, events))
    ensures var s := Execute(max, events);
            (s.queue == [] || |s.active| == max) && s.attempts + s.queue == s.pushes
  {
    SchedulerIsSound(max, events);
  }

  /** The module state of one runtime, changed in place. The last two fields are history, the second also
    * numbers the executions. */
  class Scheduler {
    const max: nat
    var queuedJobIds: seq<JobId>
    var activeJobIds: set<JobId>
    var knownJobIds: set<JobId>
    var drainInProgress: bool
    var drainRequested: bool
    var claiming: Option<JobId>
    var scheduled: nat
    var pushed: nat
    var reconciling: nat
    var finished: nat
    var running: map<nat, JobId>
    var cancels: map<nat, Cancelling>
    ghost var pushes: seq<JobId>
    var attempts: seq<JobId>

    ghost function State(): Sched
      reads this
    {
      Sched(queuedJobIds, activeJobIds, knownJobIds, drainInProgress, drainRequested, claiming,
            scheduled, pushed, reconciling, finished, running, cancels, pushes, attempts)
    }

    constructor (maxConcurrentJobs: int)
      ensures max == Limit(maxConcurrentJobs) && State() == IDLE && Inv(max, State())
    {
      max := Limit(maxConcurrentJobs);
      queuedJobIds, activeJobIds, knownJobIds := [], {}, {};
      drainInProgress, drainRequested, claiming := false, false, None;
      scheduled, pushed, reconciling, finished, running := 0, 0, 0, 0, map[];
      cancels := map[];
      pushes, attempts := [], [];
    }

    method PushJob(id: JobId)
      modifies this`queuedJobIds, this`knownJobIds, this`pushes
      ensures State() == Push(old(State()), id)
    {
      knownJobIds := knownJobIds + {id};
      queuedJobIds := queuedJobIds + [id];
      pushes := pushes + [id];
    }

    /** The nested loops of `drainQueue` up to the next claim; false when the loop has ended. */
    method RunDrainLoop() returns (suspended: bool)
      requires drainInProgress && claiming.None?
      modifies this`queuedJobIds, this`claiming, this`drainInProgress, this`drainRequested, this`attempts,
               this`cancels
      ensures State() == Continue(max, old(State())) && suspended == claiming.Some? == drainInProgress
    {
      while true
        invariant State() == old(State()).(requested := drainRequested)
        invariant drainRequested == old(drainRequested) || |activeJobIds| >= max || queuedJobIds == []
        decreases drainRequested
      {
        if |activeJobIds| < max && queuedJobIds != [] {
          claiming, attempts := Some(queuedJobIds[0]), attempts + [queuedJobIds[0]];
          queuedJobIds, cancels := queuedJobIds[1..], Moved(cancels, 0);
          return true;
        }
        if !drainRequested {
          break;
        }
        drainRequested := false;
      }
      drainInProgress := false;
      return false;
    }

    method DrainQueue()
      requires drainInProgress <==> claiming.Some?
      modifies this`queuedJobIds, this`claiming, this`drainInProgress, this`drainRequested, this`attempts,
               this`cancels
      ensures State() == DrainCall(max, old(State()))
    {
      if drainInProgress {
        drainRequested := true;
        return;
      }
      drainInProgress := true;
      drainRequested := false;
      var _ := RunDrainLoop();
    }

    method OnEnqueuePersisted(id: JobId)
      requires Inv(max, State())
      modifies this
      ensures Inv(max, State()) && State() == Next(max, old(State()), EnqueuePersisted(id))
    {
      NextKeepsInv(max, State(), EnqueuePersisted(id));
      PushJob(id);
      pushed := pushed + 1;
    }

    method OnEnqueuePublished()
      requires Inv(max, State()) && pushed > 0
      modifies this
      ensures Inv(max, State()) && State() == Next(max, old(State()), EnqueuePublished)
    {
      pushed, scheduled := pushed - 1, scheduled + 1;
    }

    method OnReconcileStarted()
      requires Inv(max, State())
      modifies this
      ensures Inv(max, State()) && State() == Next(max, old(State()), ReconcileStarted)
    {
      reconciling := reconciling + 1;
    }

    method OnReconcileFound(id: JobId)
      requires Inv(max, State()) && reconciling > 0
      modifies this
      ensures Inv(max, State()) && State() == Next(max, old(State()), ReconcileFound(id))
    {
      NextKeepsInv(max, State(), ReconcileFound(id));
      if id !in knownJobIds {
        PushJob(id);
      }
    }

    method OnReconcileEnded()
      requires Inv(max, State()) && reconciling > 0
      modifies this
      ensures Inv(max, State()) && State() == Next(max, old(State()), ReconcileEnded)
    {
      reconciling, scheduled := reconciling - 1, scheduled + 1;
    }

    method OnDrainMicrotask()
      requires Inv(max, State()) && scheduled > 0
      modifies this
      ensures Inv(max, State()) && State() == Next(max, old(State()), DrainMicrotask)
    {
      NextKeepsInv(max, State(), DrainMicrotask);
      scheduled := scheduled - 1;
      DrainQueue();
    }

    /** The drain call chained to a finished execution. */
    method OnCompletionMicrotask()
      requires Inv(max, State()) && finished > 0
      modifies this
      ensures Inv(max, State()) && State() == Next(max, old(State()), CompletionMicrotask)
    {
      NextKeepsInv(max, State(), CompletionMicrotask);
      finished := finished - 1;
      DrainQueue();
    }

    /** The continuation of the drain loop after its claim is answered. */
    method OnClaimAnswered(claimed: bool)
      requires Inv(max, State()) && claiming.Some?
      modifies this
      ensures Inv(max, State()) && State() == Next(max, old(State()), ClaimAnswered(claimed))
    {
      NextKeepsInv(max, State(), ClaimAnswered(claimed));
      var id := claiming.value;
      claiming := None;
      if claimed {
        activeJobIds := activeJobIds + {id};
        running := running[|attempts| := id];
      } else {
        knownJobIds := knownJobIds - {id};
      }
      var _ := RunDrainLoop();
      assert State() == Next(max, old(State()), ClaimAnswered(claimed));
    }

    method OnExecutionEnded(exec: nat)
      requires Inv(max, State()) && exec in running
      modifies this
      ensures Inv(max, State()) && State() == Next(max, old(State()), ExecutionEnded(exec))
    {
      NextKeepsInv(max, State(), ExecutionEnded(exec));
      var id := running[exec];
      activeJobIds := activeJobIds - {id};
      knownJobIds := knownJobIds - {id};
      running := running - {exec};
      finished := finished + 1;
      assert State() == Next(max, old(State()), ExecutionEnded(exec));
    }

    method FindQueued(id: JobId) returns (index: Option<nat>)
      ensures index == if id in queuedJobIds then Some(IndexOf(queuedJobIds, id)) else None
    {
      for i := 0 to |queuedJobIds|
        invariant id !in queuedJobIds[..i]
      {
        if queuedJobIds[i] == id {
          FirstIndex(queuedJobIds, id, i);
          return Some(i);
        }
        assert queuedJobIds[..i + 1] == queuedJobIds[..i] + [queuedJobIds[i]];
      }
      assert queuedJobIds[..|queuedJobIds|] == queuedJobIds;
      return None;
    }

    method OnCancelStarted(call: nat, id: JobId)
      requires Inv(max, State()) && call !in cancels
      modifies this
      ensures Inv(max, State()) && State() == Next(max, old(State()), CancelStarted(call, id))
    {
      NextKeepsInv(max, State(), CancelStarted(call, id));
      var index := FindQueued(id);
      if index.Some? {
        cancels := cancels[call := Cancelling(id, index.value, true)];
      }
    }

    method SpliceQueue(index: nat)
      modifies this`queuedJobIds, this`pushes, this`cancels
      ensures State() == Splice(old(State()), index)
    {
      if index < |queuedJobIds| {
        queuedJobIds := Without(queuedJobIds, index);
        pushes := Without(pushes, |attempts| + index);
        cancels := Moved(cancels, index);
      }
    }

    /** The continuation of a local cancellation after its transaction. */
    method OnCancelAnswered(call: nat, isRunning: bool)
      requires Inv(max, State()) && call in cancels
      modifies this
      ensures Inv(max, State()) && State() == Next(max, old(State()), CancelAnswered(call, isRunning))
    {
      NextKeepsInv(max, State(), CancelAnswered(call, isRunning));
      var c := cancels[call];
      cancels := cancels - {call};
      if !isRunning {
        SpliceQueue(c.index);
        knownJobIds := knownJobIds - {c.id};
      }
      assert State() == Next(max, old(State()), CancelAnswered(call, isRunning));
    }
  }
}
