/** Idempotent job creation in one process: the two mutexes made of maps of promises, the search for a
  * free job id, the creation of the record and the clean-up after a failure, cut at every await
  * (backend/src/services/jobControlService.js, `withIdempotencyReservation`;
  * backend/src/utils/jobIdGenerator.js, `reserveUniqueJobId`;
  * backend/src/skills/genericSkillJobService.js, `createSkillJob`). */
module JobCreation {
  import opened Wrappers
  import opened JobIds

  type CallId = nat

  /** The worker and idempotency key of a creation, both normalised. */
  datatype LogicalKey = LogicalKey(workerId: string, idempotencyKey: string)

  function ReservationKey(key: LogicalKey): string {
    key.workerId + "::" + key.idempotencyKey
  }

  type Calls = map<CallId, LogicalKey>

  datatype Job = Job(key: LogicalKey, deleted: bool)

  /** Where a call stands. Reads take effect where they are made and are answered later. */
  datatype Phase =
    | NotCalled
    | Waiting(behind: CallId)
    | Searching
    | Answered(found: Option<JobId>)
    | WaitingForIds(date: string, behind: CallId)
    | LookingUpLatest(date: string)
    | Scanning(date: string, first: nat, sequence: nat)
    | Probing(date: string, first: nat, sequence: nat)
    | Probed(date: string, first: nat, sequence: nat, taken: bool)
    | Unlocking(date: string, id: JobId)
    | Creating(id: JobId)
    | Stored(id: JobId)
    | Cleaning(id: JobId)
    | Returned(id: JobId, created: bool)
    | Threw

  type Phases = map<CallId, Phase>

  /** `reservations` and `idLocks` map the keys with a pending promise to the call that holds it;
    * `deleting` are the clean-up deletions that have read their record but not yet written. */
  datatype State = State(
    reservations: map<string, CallId>,
    idLocks: map<string, CallId>,
    reserved: set<JobId>,
    jobs: map<JobId, Job>,
    deleting: set<JobId>,
    phases: Phases)

  datatype Action =
    | Enter
    | ReadExisting(pick: Option<JobId>)
    | Replay
    | AskForId(date: string)
    | ReadLatest(latest: Option<nat>)
    | Probe
    | ReadExists
    | Decide
    | Unlock
    | Store
    | Finish
    | Throw
    | EndCleanup

  datatype Step = On(call: CallId, action: Action) | DeletionLands(id: JobId)

  /** The operation passed to `withIdempotencyReservation` is under way. */
  predicate InOperation(p: Phase) {
    !p.NotCalled? && !p.Waiting? && !p.Returned? && !p.Threw?
  }

  /** The date whose id lock a call holds. */
  function LockOf(p: Phase): Option<string> {
    if p.LookingUpLatest? || p.Scanning? || p.Probing? || p.Probed? || p.Unlocking? then Some(p.date) else None
  }

  /** The job id a call has reserved and not released. */
  function HeldId(p: Phase): Option<JobId> {
    if p.Unlocking? || p.Creating? || p.Stored? || p.Cleaning? then Some(p.id) else None
  }

  /** The id under which a call has created a job. */
  function CreatedId(p: Phase): Option<JobId> {
    if p.Stored? || (p.Returned? && p.created) then Some(p.id) else None
  }

  /** The id a call has been shown as the one job of its key. */
  function ReplayedId(p: Phase): Option<JobId> {
    if p.Answered? then p.found
    else if p.Returned? && !p.created then Some(p.id)
    else None
  }

  predicate Live(jobs: map<JobId, Job>, key: LogicalKey, id: JobId) {
    id in jobs && jobs[id].key == key && !jobs[id].deleted
  }

  /** What a step does to one of the shared collections, and to the stored records. */
  datatype Op = Keep | Take(key: string) | Drop(key: string)
  datatype Write = NoWrite | Put(id: JobId) | Doom(id: JobId)

  /** A step of one call: where it goes and what it does on the way. `Go(p)` from `p` is no step. */
  datatype Change = Change(phase: Phase, reservation: Op, lock: Op, id: Op, write: Write)

  function Go(p: Phase): Change {
    Change(p, Keep, Keep, Keep, NoWrite)
  }

  // ---------- steps ----------

  predicate MayEnter(s: State, p: Phase) {
    p.NotCalled? || (p.Waiting? && !(p.behind in s.phases && InOperation(s.phases[p.behind])))
  }

  /** The look into the map, at the first call and again whenever the awaited holder is done. */
  function EnterStep(s: State, key: LogicalKey): Change {
    var k := ReservationKey(key);
    if k in s.reservations then Go(Waiting(s.reservations[k]))
    else Go(Searching).(reservation := Take(k))
  }

  /** `findJobByIdempotency`: any one of the live jobs with the key, or none when there is none. */
  ghost predicate MayPick(jobs: map<JobId, Job>, key: LogicalKey, pick: Option<JobId>) {
    match pick
    case Some(id) => Live(jobs, key, id)
    case None => forall id :: !Live(jobs, key, id)
  }

  predicate MayAsk(s: State, p: Phase, date: string) {
    && IsDate(date)
    && (p == Answered(None)
        || (p.WaitingForIds? && p.date == date
            && !(p.behind in s.phases && LockOf(s.phases[p.behind]) == Some(date))))
  }

  function AskForIdStep(s: State, date: string): Change {
    if date in s.idLocks then Go(WaitingForIds(date, s.idLocks[date]))
    else Go(LookingUpLatest(date)).(lock := Take(date))
  }

  /** The head of the candidate loop. */
  function ProbeStep(s: State, key: LogicalKey, p: Phase): Change
    requires p.Scanning?
  {
    if p.sequence >= p.first + CANDIDATES then ThrowStep(s, key, p)
    else if Candidate(p.date, p.sequence) in s.reserved then Go(Scanning(p.date, p.first, p.sequence + 1))
    else Go(Probing(p.date, p.first, p.sequence))
  }

  function DecideStep(p: Phase): Change
    requires p.Probed?
  {
    if p.taken then Go(Scanning(p.date, p.first, p.sequence + 1))
    else
      var id := Candidate(p.date, p.sequence);
      Go(Unlocking(p.date, id)).(id := Take(id))
  }

  function StoreStep(s: State, key: LogicalKey, p: Phase): Change
    requires p.Creating?
  {
    if p.id in s.jobs then ThrowStep(s, key, p) else Go(Stored(p.id)).(write := Put(p.id))
  }

  /** An exception inside the operation. Once an id is known the record is looked up for deletion and
    * the clean-up is awaited; before that the mutexes are released at once. */
  function ThrowStep(s: State, key: LogicalKey, p: Phase): Change {
    if p.Creating? || p.Stored? then
      Go(Cleaning(p.id)).(write := if p.id in s.jobs then Doom(p.id) else NoWrite)
    else
      Leave(key, p, Threw).(lock := if LockOf(p).Some? then Drop(LockOf(p).value) else Keep)
  }

  /** Release of the reserved id, if any, and of the reservation. */
  function Leave(key: LogicalKey, p: Phase, p': Phase): Change {
    Go(p').(reservation := Drop(ReservationKey(key)),
            id := if HeldId(p).Some? then Drop(HeldId(p).value) else Keep)
  }

  /** What a call does by an action; an action that is not enabled does nothing. */
  ghost function Act(s: State, key: LogicalKey, p: Phase, action: Action): Change {
    match action
    case Enter => if MayEnter(s, p) then EnterStep(s, key) else Go(p)
    case ReadExisting(pick) => if p.Searching? && MayPick(s.jobs, key, pick) then Go(Answered(pick)) else Go(p)
    case Replay => if p.Answered? && p.found.Some? then Leave(key, p, Returned(p.found.value, false)) else Go(p)
    case AskForId(date) => if MayAsk(s, p, date) then AskForIdStep(s, date) else Go(p)
    case ReadLatest(latest) =>
      if p.LookingUpLatest? then Go(Scanning(p.date, FirstSequence(latest), FirstSequence(latest))) else Go(p)
    case Probe => if p.Scanning? then ProbeStep(s, key, p) else Go(p)
    case ReadExists =>
      if p.Probing? then Go(Probed(p.date, p.first, p.sequence, Candidate(p.date, p.sequence) in s.jobs)) else Go(p)
    case Decide => if p.Probed? then DecideStep(p) else Go(p)
    case Unlock => if p.Unlocking? then Go(Creating(p.id)).(lock := Drop(p.date)) else Go(p)
    case Store => if p.Creating? then StoreStep(s, key, p) else Go(p)
    case Finish => if p.Stored? then Leave(key, p, Returned(p.id, true)) else Go(p)
    case Throw => if InOperation(p) && !p.Unlocking? && !p.Cleaning? then ThrowStep(s, key, p) else Go(p)
    case EndCleanup => if p.Cleaning? then Leave(key, p, Threw) else Go(p)
  }

  function ApplyOp(holders: map<string, CallId>, c: CallId, op: Op): map<string, CallId> {
    match op
    case Keep => holders
    case Take(k) => holders[k := c]
    case Drop(k) => holders - {k}
  }

  function ApplyToIds(reserved: set<JobId>, op: Op): set<JobId> {
    match op
    case Keep => reserved
    case Take(id) => reserved + {id}
    case Drop(id) => reserved - {id}
  }

  function Apply(s: State, c: CallId, key: LogicalKey, change: Change): State {
    State(
      ApplyOp(s.reservations, c, change.reservation),
      ApplyOp(s.idLocks, c, change.lock),
      ApplyToIds(s.reserved, change.id),
      if change.write.Put? then s.jobs[change.write.id := Job(key, false)] else s.jobs,
      if change.write.Doom? then s.deleting + {change.write.id} else s.deleting,
      s.phases[c := change.phase])
  }

  ghost function After(calls: Calls, s: State, step: Step): (s': State)
    requires s.phases.Keys == calls.Keys
    ensures s'.phases.Keys == calls.Keys
  {
    match step
    case On(c, action) =>
      if c in calls then Apply(s, c, calls[c], Act(s, calls[c], s.phases[c], action)) else s
    case DeletionLands(id) =>
      if id in s.deleting && id in s.jobs
      then s.(jobs := s.jobs[id := s.jobs[id].(deleted := true)], deleting := s.deleting - {id})
      else s
  }

  ghost predicate OneLive(jobs: map<JobId, Job>) {
    forall i, j | i in jobs && j in jobs :: !jobs[i].deleted && Live(jobs, jobs[i].key, j) ==> i == j
  }

  ghost predicate Initial(calls: Calls, s: State) {
    && s.phases.Keys == calls.Keys
    && (forall c | c in calls :: s.phases[c] == NotCalled)
    && s.reservations == map[] && s.idLocks == map[] && s.reserved == {} && s.deleting == {}
    && OneLive(s.jobs)
  }

  ghost function Execute(calls: Calls, start: State, steps: seq<Step>): (s: State)
    requires start.phases.Keys == calls.Keys
    ensures s.phases.Keys == calls.Keys
    decreases |steps|
  {
    if steps == [] then start
    else After(calls, Execute(calls, start, steps[..|steps| - 1]), steps[|steps| - 1])
  }

  /** The actions up to the search for a free id. */
  predicate Searches(action: Action) {
    action.Enter? || action.ReadExisting? || action.Replay? || action.AskForId? || action.ReadLatest? || action.Probe?
  }

  // ---------- the two mutexes ----------

  /** The reservations are exactly those of the operations under way. */
  ghost predicate MutexInv(calls: Calls, phases: Phases, reservations: map<string, CallId>) {
    && phases.Keys == calls.Keys
    && (forall c | c in calls ::
          InOperation(phases[c]) <==>
            (ReservationKey(calls[c]) in reservations && reservations[ReservationKey(calls[c])] == c))
    && (forall k | k in reservations :: reservations[k] in calls && ReservationKey(calls[reservations[k]]) == k)
  }

  /** The id locks are exactly those of the searches under way. */
  ghost predicate LockInv(phases: Phases, idLocks: map<string, CallId>) {
    && (forall c | c in phases && LockOf(phases[c]).Some? ::
          LockOf(phases[c]).value in idLocks && idLocks[LockOf(phases[c]).value] == c)
    && (forall d | d in idLocks :: idLocks[d] in phases && LockOf(phases[idLocks[d]]) == Some(d))
  }

  /** The operation agrees with what the call holds before and after it. */
  predicate Fits(op: Op, before: Option<string>, after: Option<string>) {
    match op
    case Keep => before == after
    case Take(k) => before.None? && after == Some(k)
    case Drop(k) => before == Some(k) && after.None?
  }

  function ReservationOf(key: LogicalKey, p: Phase): Option<string> {
    if InOperation(p) then Some(ReservationKey(key)) else None
  }

  /** Every step takes and gives up exactly what its phases say, and takes only what is free. */
  lemma {:induction false} ActFits(s: State, key: LogicalKey, p: Phase, action: Action)
    ensures var change := Act(s, key, p, action);
            && Fits(change.reservation, ReservationOf(key, p), ReservationOf(key, change.phase))
            && (change.reservation.Take? ==> change.reservation.key !in s.reservations)
            && Fits(change.id, HeldId(p), HeldId(change.phase))
  {
  }

  lemma {:induction false} ActFitsLocks(s: State, key: LogicalKey, p: Phase, action: Action)
    ensures var change := Act(s, key, p, action);
            && Fits(change.lock, LockOf(p), LockOf(change.phase))
            && (change.lock.Take? ==> change.lock.key !in s.idLocks)
  {
  }

  lemma {:induction false} KeepsMutex(calls: Calls, phases: Phases, c: CallId, p: Phase,
                                      holders: map<string, CallId>, op: Op)
    requires c in calls && MutexInv(calls, phases, holders)
    requires Fits(op, ReservationOf(calls[c], phases[c]), ReservationOf(calls[c], p))
    requires op.Take? ==> op.key !in holders
    ensures MutexInv(calls, phases[c := p], ApplyOp(holders, c, op))
  {
  }

  lemma {:induction false} KeepsLocks(phases: Phases, c: CallId, p: Phase, holders: map<string, CallId>, op: Op)
    requires c in phases && LockInv(phases, holders)
    requires Fits(op, LockOf(phases[c]), LockOf(p))
    requires op.Take? ==> op.key !in holders
    ensures LockInv(phases[c := p], ApplyOp(holders, c, op))
  {
  }

  /** No operation with this reservation key is under way. */
  ghost predicate KeyFree(calls: Calls, phases: Phases, key: string) {
    forall c | c in calls && c in phases && InOperation(phases[c]) :: ReservationKey(calls[c]) != key
  }

  /** The map of promises of the idempotency service, changed in place under its lock discipline. */
  class Reservations {
    var holders: map<string, CallId>

    constructor ()
      ensures holders == map[]
    {
      holders := map[];
    }

    /** Starts the operation exactly when no other with the key is under way, and otherwise names that
      * one to wait for. */
    method Enter(key: string, call: CallId, ghost calls: Calls, ghost phases: Phases) returns (behind: Option<CallId>)
      requires MutexInv(calls, phases, holders) && call in calls && ReservationKey(calls[call]) == key
      requires !InOperation(phases[call])
      modifies this
      ensures behind.None? <==> KeyFree(calls, phases, key)
      ensures behind.None? ==> MutexInv(calls, phases[call := Searching], holders)
      ensures behind.Some? ==>
                && holders == old(holders)
                && behind.value in calls && InOperation(phases[behind.value])
                && ReservationKey(calls[behind.value]) == key
    {
      if key in holders {
        return Some(holders[key]);
      }
      KeepsMutex(calls, phases, call, Searching, holders, Take(key));
      holders := holders[key := call];
      return None;
    }

    /** Ends the operation: the key is free for whoever waits, and no other operation is affected. */
    method Leave(key: string, call: CallId, ghost after: Phase, ghost calls: Calls, ghost phases: Phases)
      requires MutexInv(calls, phases, holders) && call in calls && ReservationKey(calls[call]) == key
      requires InOperation(phases[call]) && !InOperation(after)
      modifies this
      ensures MutexInv(calls, phases[call := after], holders)
      ensures KeyFree(calls, phases[call := after], key)
      ensures forall k | k != key && k in old(holders) :: k in holders && holders[k] == old(holders)[k]
    {
      KeepsMutex(calls, phases, call, after, holders, Drop(key));
      holders := holders - {key};
    }
  }

  // ---------- job ids ----------

  /** The reserved ids are exactly the ids held, each by one call. */
  ghost predicate HeldInv(phases: Phases, reserved: set<JobId>) {
    && (forall c | c in phases && HeldId(phases[c]).Some? :: HeldId(phases[c]).value in reserved)
    && (forall c, d | c in phases && d in phases && HeldId(phases[c]).Some? ::
          HeldId(phases[c]) == HeldId(phases[d]) ==> c == d)
    && (forall id | id in reserved :: exists c | c in phases :: HeldId(phases[c]) == Some(id))
  }

  /** What a search and a reservation may rely on. */
  predicate IdSound(p: Phase, reserved: set<JobId>, jobs: map<JobId, Job>) {
    match p
    case WaitingForIds(date, _) => IsDate(date)
    case LookingUpLatest(date) => IsDate(date)
    case Scanning(date, _, _) => IsDate(date)
    case Probing(date, _, sequence) => IsDate(date) && Candidate(date, sequence) !in reserved
    case Probed(date, _, sequence, taken) =>
      && IsDate(date) && Candidate(date, sequence) !in reserved
      && (!taken ==> Candidate(date, sequence) !in jobs)
    case Unlocking(date, id) => IsDate(date) && id !in jobs
    case Creating(id) => id !in jobs
    case _ => true
  }

  ghost predicate IdInv(phases: Phases, reserved: set<JobId>, jobs: map<JobId, Job>) {
    && HeldInv(phases, reserved)
    && forall c | c in phases :: IdSound(phases[c], reserved, jobs)
  }

  function WrittenJobs(jobs: map<JobId, Job>, key: LogicalKey, write: Write): map<JobId, Job> {
    if write.Put? then jobs[write.id := Job(key, false)] else jobs
  }

  lemma {:induction false} KeepsHeld(phases: Phases, c: CallId, p: Phase, reserved: set<JobId>, op: Op)
    requires c in phases && HeldInv(phases, reserved)
    requires Fits(op, HeldId(phases[c]), HeldId(p)) && (op.Take? ==> op.key !in reserved)
    ensures HeldInv(phases[c := p], ApplyToIds(reserved, op))
  {
    var phases' := phases[c := p];
    forall id | id in ApplyToIds(reserved, op)
      ensures exists d | d in phases' :: HeldId(phases'[d]) == Some(id)
    {
      if op == Take(id) {
        assert HeldId(phases'[c]) == Some(id);
      } else {
        var d :| d in phases && HeldId(phases[d]) == Some(id);
        assert HeldId(phases'[d]) == Some(id);
      }
    }
  }

  /** The moving call: an id is taken only when it is free, a record is put only under a held id that
    * no record has, and the new phase may rely on what it relies on. */
  lemma {:induction false} MovedId(s: State, key: LogicalKey, p: Phase, action: Action)
    requires IdSound(p, s.reserved, s.jobs)
    ensures var change := Act(s, key, p, action);
            && (change.id.Take? ==> p.Probed? && change.id.key == Candidate(p.date, p.sequence)
                                      && change.id.key !in s.reserved)
            && (change.write.Put? ==> p == Creating(change.write.id) && change.write.id !in s.jobs)
            && IdSound(change.phase, ApplyToIds(s.reserved, change.id), WrittenJobs(s.jobs, key, change.write))
  {
  }

  /** A call that does not move: the id locks keep searches for the same date apart, the reservations
    * keep a searched id from being stored. */
  lemma {:induction false} IdleId(phases: Phases, c: CallId, d: CallId, reserved: set<JobId>, jobs: map<JobId, Job>,
               locks: map<string, CallId>, key: LogicalKey, op: Op, write: Write)
    requires c in phases && d in phases && c != d
    requires LockInv(phases, locks) && IdInv(phases, reserved, jobs)
    requires op.Take? ==> phases[c].Probed? && op.key == Candidate(phases[c].date, phases[c].sequence)
    requires write.Put? ==> phases[c] == Creating(write.id)
    ensures IdSound(phases[d], ApplyToIds(reserved, op), WrittenJobs(jobs, key, write))
  {
    var p, q := phases[c], phases[d];
    assert IdSound(p, reserved, jobs) && IdSound(q, reserved, jobs);
    if op.Take? && (q.Probing? || q.Probed?) {
      assert LockOf(p).Some? && LockOf(q).Some?;
      CandidatesAreDistinct(p.date, p.sequence, q.date, q.sequence);
    }
    if write.Put? {
      assert HeldId(p) == Some(write.id);
    }
  }

  /** What `MovedId` and `ActFits` say of a change, apart from the action that made it. */
  ghost predicate IdChange(s: State, c: CallId, key: LogicalKey, change: Change)
    requires c in s.phases
  {
    var p := s.phases[c];
    && Fits(change.id, HeldId(p), HeldId(change.phase))
    && (change.id.Take? ==> p.Probed? && change.id.key == Candidate(p.date, p.sequence) && change.id.key !in s.reserved)
    && (change.write.Put? ==> p == Creating(change.write.id) && change.write.id !in s.jobs)
    && IdSound(change.phase, ApplyToIds(s.reserved, change.id), WrittenJobs(s.jobs, key, change.write))
  }

  lemma {:induction false} KeepsIds(s: State, c: CallId, key: LogicalKey, change: Change)
    requires c in s.phases && LockInv(s.phases, s.idLocks) && IdInv(s.phases, s.reserved, s.jobs)
    requires IdChange(s, c, key, change)
    ensures var s' := Apply(s, c, key, change); IdInv(s'.phases, s'.reserved, s'.jobs)
  {
    KeepsHeld(s.phases, c, change.phase, s.reserved, change.id);
    forall d | d in s.phases && d != c
      ensures IdSound(s.phases[d], ApplyToIds(s.reserved, change.id), WrittenJobs(s.jobs, key, change.write))
    {
      IdleId(s.phases, c, d, s.reserved, s.jobs, s.idLocks, key, change.id, change.write);
    }
  }

  // ---------- jobs of one key ----------

  ghost predicate NoLive(jobs: map<JobId, Job>, key: LogicalKey) {
    forall id | id in jobs :: !Live(jobs, key, id)
  }

  /** The search for a job of the key came back empty and nothing has been stored since. */
  predicate FoundNone(p: Phase) {
    p == Answered(None) || p.WaitingForIds? || LockOf(p).Some? || p.Creating?
  }

  ghost predicate KeySound(key: LogicalKey, p: Phase, jobs: map<JobId, Job>) {
    && (FoundNone(p) ==> NoLive(jobs, key))
    && (CreatedId(p).Some? ==> CreatedId(p).value in jobs && jobs[CreatedId(p).value].key == key)
  }

  ghost predicate KeyInv(calls: Calls, phases: Phases, jobs: map<JobId, Job>) {
    && phases.Keys == calls.Keys
    && OneLive(jobs)
    && (forall c | c in calls :: KeySound(calls[c], phases[c], jobs))
    && CreatedApart(phases)
  }

  /** No two calls have created a job under the same id. */
  ghost predicate CreatedApart(phases: Phases) {
    forall c, d | c in phases && d in phases && CreatedId(phases[c]).Some? ::
      CreatedId(phases[c]) == CreatedId(phases[d]) ==> c == d
  }

  /** How a change moves one call between the stages that `KeyInv` tells apart. */
  ghost predicate KeyChange(jobs: map<JobId, Job>, key: LogicalKey, p: Phase, change: Change) {
    && (change.write.Put? ==>
          p == Creating(change.write.id) && change.write.id !in jobs && change.phase == Stored(change.write.id))
    && (!change.write.Put? ==> CreatedId(change.phase).None? || CreatedId(change.phase) == CreatedId(p))
    && (FoundNone(change.phase) && !FoundNone(p) ==> NoLive(jobs, key))
  }

  lemma {:induction false} MovedKeyEarly(s: State, key: LogicalKey, p: Phase, action: Action)
    requires Searches(action)
    ensures KeyChange(s.jobs, key, p, Act(s, key, p, action))
  {
  }

  lemma {:induction false} MovedKeyLate(s: State, key: LogicalKey, p: Phase, action: Action)
    requires !Searches(action)
    ensures KeyChange(s.jobs, key, p, Act(s, key, p, action))
  {
  }

  lemma {:induction false} MovedKey(s: State, key: LogicalKey, p: Phase, action: Action)
    ensures KeyChange(s.jobs, key, p, Act(s, key, p, action))
  {
    if Searches(action) {
      MovedKeyEarly(s, key, p, action);
    } else {
      MovedKeyLate(s, key, p, action);
    }
  }

  /** The call is the only one of its key with an operation under way. */
  ghost predicate Alone(calls: Calls, phases: Phases, c: CallId)
    requires c in calls && phases.Keys == calls.Keys
  {
    forall d | d in calls && d != c && calls[d] == calls[c] :: !InOperation(phases[d])
  }

  lemma {:induction false} HolderIsAlone(calls: Calls, phases: Phases, holders: map<string, CallId>, c: CallId)
    requires MutexInv(calls, phases, holders) && c in calls && InOperation(phases[c])
    ensures Alone(calls, phases, c)
  {
  }

  /** A call that does not move: only the holder of the reservation can store a job of its key. */
  lemma {:induction false} IdleKey(key: LogicalKey, p: Phase, jobs: map<JobId, Job>, id: JobId, stored: LogicalKey)
    requires KeySound(key, p, jobs) && id !in jobs && (stored == key ==> !InOperation(p))
    ensures KeySound(key, p, jobs[id := Job(stored, false)])
  {
  }

  lemma {:induction false} StoreKeepsOneLive(jobs: map<JobId, Job>, key: LogicalKey, id: JobId)
    requires OneLive(jobs) && NoLive(jobs, key) && id !in jobs
    ensures OneLive(jobs[id := Job(key, false)])
  {
  }

  lemma {:induction false} StoreKeepsKeys(calls: Calls, s: State, c: CallId, id: JobId)
    requires c in calls && MutexInv(calls, s.phases, s.reservations) && KeyInv(calls, s.phases, s.jobs)
    requires s.phases[c] == Creating(id) && id !in s.jobs
    ensures KeyInv(calls, s.phases[c := Stored(id)], s.jobs[id := Job(calls[c], false)])
  {
    assert KeySound(calls[c], s.phases[c], s.jobs);
    HolderIsAlone(calls, s.phases, s.reservations, c);
    StoreKeepsOneLive(s.jobs, calls[c], id);
    StoreKeepsApart(calls, s.phases, s.jobs, c, id);
    StoreKeepsSound(calls, s.phases, s.jobs, c, id);
  }

  lemma {:induction false} StoreKeepsApart(calls: Calls, phases: Phases, jobs: map<JobId, Job>, c: CallId, id: JobId)
    requires c in calls && phases.Keys == calls.Keys && CreatedApart(phases) && id !in jobs
    requires forall d | d in calls :: KeySound(calls[d], phases[d], jobs)
    ensures CreatedApart(phases[c := Stored(id)])
  {
    forall d | d in phases && d != c ensures CreatedId(phases[d]) != Some(id) {
      assert KeySound(calls[d], phases[d], jobs);
    }
  }

  lemma {:induction false} StoreKeepsSound(calls: Calls, phases: Phases, jobs: map<JobId, Job>, c: CallId, id: JobId)
    requires c in calls && phases.Keys == calls.Keys && Alone(calls, phases, c) && id !in jobs
    requires forall d | d in calls :: KeySound(calls[d], phases[d], jobs)
    ensures var phases', jobs' := phases[c := Stored(id)], jobs[id := Job(calls[c], false)];
            forall d | d in calls :: KeySound(calls[d], phases'[d], jobs')
  {
    forall d | d in calls && d != c
      ensures KeySound(calls[d], phases[d], jobs[id := Job(calls[c], false)])
    {
      IdleKey(calls[d], phases[d], jobs, id, calls[c]);
    }
  }

  lemma {:induction false} MoveKeepsApart(phases: Phases, c: CallId, p: Phase)
    requires c in phases && CreatedApart(phases)
    requires CreatedId(p).None? || CreatedId(p) == CreatedId(phases[c])
    ensures CreatedApart(phases[c := p])
  {
  }

  lemma {:induction false} MoveKeepsKeys(calls: Calls, phases: Phases, c: CallId, p: Phase, jobs: map<JobId, Job>)
    requires c in calls && KeyInv(calls, phases, jobs)
    requires CreatedId(p).None? || CreatedId(p) == CreatedId(phases[c])
    requires FoundNone(p) && !FoundNone(phases[c]) ==> NoLive(jobs, calls[c])
    ensures KeyInv(calls, phases[c := p], jobs)
  {
    MoveKeepsApart(phases, c, p);
    forall d | d in calls ensures KeySound(calls[d], phases[c := p][d], jobs) {
      assert KeySound(calls[d], phases[d], jobs);
    }
  }

  lemma {:induction false} KeepsKeys(calls: Calls, s: State, c: CallId, change: Change)
    requires c in calls && MutexInv(calls, s.phases, s.reservations) && KeyInv(calls, s.phases, s.jobs)
    requires KeyChange(s.jobs, calls[c], s.phases[c], change)
    ensures KeyInv(calls, s.phases[c := change.phase], WrittenJobs(s.jobs, calls[c], change.write))
  {
    if change.write.Put? {
      StoreKeepsKeys(calls, s, c, change.write.id);
    } else {
      MoveKeepsKeys(calls, s.phases, c, change.phase, s.jobs);
    }
  }

  lemma {:induction false} DeletionKeepsKeys(calls: Calls, phases: Phases, jobs: map<JobId, Job>, id: JobId)
    requires KeyInv(calls, phases, jobs) && id in jobs
    ensures KeyInv(calls, phases, jobs[id := jobs[id].(deleted := true)])
  {
    var jobs' := jobs[id := jobs[id].(deleted := true)];
    forall c | c in calls
      ensures KeySound(calls[c], phases[c], jobs')
    {
      assert KeySound(calls[c], phases[c], jobs);
    }
  }

  // ---------- runs ----------

  ghost predicate Inv(calls: Calls, s: State) {
    && MutexInv(calls, s.phases, s.reservations)
    && LockInv(s.phases, s.idLocks)
    && IdInv(s.phases, s.reserved, s.jobs)
    && KeyInv(calls, s.phases, s.jobs)
  }

  lemma {:induction false} ActKeepsInv(calls: Calls, s: State, c: CallId, action: Action)
    requires Inv(calls, s) && c in calls
    ensures Inv(calls, After(calls, s, On(c, action)))
  {
    var p := s.phases[c];
    assert IdSound(p, s.reserved, s.jobs);
    ActFits(s, calls[c], p, action);
    ActFitsLocks(s, calls[c], p, action);
    MovedId(s, calls[c], p, action);
    MovedKey(s, calls[c], p, action);
    ChangeKeepsInv(calls, s, c, Act(s, calls[c], p, action));
  }

  lemma {:induction false} ChangeKeepsInv(calls: Calls, s: State, c: CallId, change: Change)
    requires Inv(calls, s) && c in calls
    requires Fits(change.reservation, ReservationOf(calls[c], s.phases[c]), ReservationOf(calls[c], change.phase))
    requires change.reservation.Take? ==> change.reservation.key !in s.reservations
    requires Fits(change.lock, LockOf(s.phases[c]), LockOf(change.phase))
    requires change.lock.Take? ==> change.lock.key !in s.idLocks
    requires IdChange(s, c, calls[c], change) && KeyChange(s.jobs, calls[c], s.phases[c], change)
    ensures Inv(calls, Apply(s, c, calls[c], change))
  {
    KeepsMutex(calls, s.phases, c, change.phase, s.reservations, change.reservation);
    KeepsLocks(s.phases, c, change.phase, s.idLocks, change.lock);
    KeepsIds(s, c, calls[c], change);
    KeepsKeys(calls, s, c, change);
  }

  lemma {:induction false} DeletionKeepsInv(calls: Calls, s: State, id: JobId)
    requires Inv(calls, s) && id in s.jobs
    ensures Inv(calls, s.(jobs := s.jobs[id := s.jobs[id].(deleted := true)], deleting := s.deleting - {id}))
  {
    var jobs' := s.jobs[id := s.jobs[id].(deleted := true)];
    forall c | c in s.phases
      ensures IdSound(s.phases[c], s.reserved, jobs')
    {
      assert IdSound(s.phases[c], s.reserved, s.jobs);
    }
    DeletionKeepsKeys(calls, s.phases, s.jobs, id);
  }

  lemma {:induction false} StepKeepsInv(calls: Calls, s: State, step: Step)
    requires Inv(calls, s)
    ensures Inv(calls, After(calls, s, step))
  {
    match step
    case On(c, action) =>
      if c in calls {
        ActKeepsInv(calls, s, c, action);
      }
    case DeletionLands(id) =>
      if id in s.jobs {
        DeletionKeepsInv(calls, s, id);
      }
  }

  lemma {:induction false} RunKeepsInv(calls: Calls, start: State, steps: seq<Step>)
    requires Initial(calls, start)
    ensures Inv(calls, Execute(calls, start, steps))
    decreases |steps|
  {
    if steps != [] {
      RunKeepsInv(calls, start, steps[..|steps| - 1]);
      StepKeepsInv(calls, Execute(calls, start, steps[..|steps| - 1]), steps[|steps| - 1]);
    }
  }

  /** In every interleaving, with any failures: at most one operation per reservation key is under way,
    * and at most one job that is not deleted carries a key. */
  lemma {:induction false} OneOperationAndOneJobPerKey(calls: Calls, start: State, steps: seq<Step>)
    requires Initial(calls, start)
    ensures var s := Execute(calls, start, steps);
            && (forall c, d | c in calls && d in calls && InOperation(s.phases[c]) && InOperation(s.phases[d]) ::
                  ReservationKey(calls[c]) == ReservationKey(calls[d]) ==> c == d)
            && (forall key, i, j | Live(s.jobs, key, i) && Live(s.jobs, key, j) :: i == j)
  {
    RunKeepsInv(calls, start, steps);
  }

  lemma {:induction false} CreatingIsFree(phases: Phases, reserved: set<JobId>, jobs: map<JobId, Job>)
    requires IdInv(phases, reserved, jobs)
    ensures forall c | c in phases && phases[c].Creating? :: phases[c].id !in jobs && phases[c].id in reserved
  {
    forall c | c in phases && phases[c].Creating?
      ensures phases[c].id !in jobs && phases[c].id in reserved
    {
      assert IdSound(phases[c], reserved, jobs) && HeldId(phases[c]).Some?;
    }
  }

  /** In every interleaving, whatever the latest-job lookups answer: no two calls hold the same id, an id
    * about to be stored is not stored (deleted records included), so the creation never meets a
    * conflict; all created jobs have different ids; and only ids held by a call stay reserved. */
  lemma {:induction false} JobIdsAreNeverShared(calls: Calls, start: State, steps: seq<Step>)
    requires Initial(calls, start)
    ensures var s := Execute(calls, start, steps);
            && HeldInv(s.phases, s.reserved)
            && (forall c | c in calls && s.phases[c].Creating? ::
                  s.phases[c].id !in s.jobs && s.phases[c].id in s.reserved)
            && CreatedApart(s.phases)
  {
    RunKeepsInv(calls, start, steps);
    var s := Execute(calls, start, steps);
    CreatingIsFree(s.phases, s.reserved, s.jobs);
  }

  // ---------- exactly once ----------

  /** A call of the key meets an exception. */
  predicate Fails(calls: Calls, key: LogicalKey, step: Step) {
    step.On? && step.action.Throw? && step.call in calls && calls[step.call] == key
  }

  ghost predicate NoFailure(calls: Calls, key: LogicalKey, steps: seq<Step>) {
    forall i | 0 <= i < |steps| :: !Fails(calls, key, steps[i])
  }

  /** The job was there from the start, or a call of its key has created it and returned. */
  ghost predicate Known(calls: Calls, key: LogicalKey, start: State, phases: Phases, id: JobId) {
    || Live(start.jobs, key, id)
    || exists d | d in calls && d in phases :: calls[d] == key && phases[d] == Returned(id, true)
  }

  ghost predicate Made(calls: Calls, key: LogicalKey, start: State, phases: Phases, id: JobId) {
    || Live(start.jobs, key, id)
    || exists d | d in calls && d in phases :: calls[d] == key && CreatedId(phases[d]) == Some(id)
  }

  ghost predicate QuietInv(calls: Calls, key: LogicalKey, start: State, s: State)
    requires s.phases.Keys == calls.Keys
  {
    && (forall id | id in s.deleting :: id in s.jobs && s.jobs[id].key != key)
    && (forall c | c in calls && calls[c] == key && CreatedId(s.phases[c]).Some? ::
          Live(s.jobs, key, CreatedId(s.phases[c]).value))
    && (forall c | c in calls && calls[c] == key && ReplayedId(s.phases[c]).Some? ::
          Live(s.jobs, key, ReplayedId(s.phases[c]).value)
          && Known(calls, key, start, s.phases, ReplayedId(s.phases[c]).value))
    && (forall id | Live(s.jobs, key, id) :: Made(calls, key, start, s.phases, id))
    && (forall id | Live(start.jobs, key, id) :: Live(s.jobs, key, id))
    && start.jobs.Keys <= s.jobs.Keys
    && (forall c | c in calls && CreatedId(s.phases[c]).Some? :: CreatedId(s.phases[c]).value !in start.jobs)
  }

  /** What a step of a failure-free run does to the job of the key. */
  ghost predicate QuietChange(jobs: map<JobId, Job>, own: LogicalKey, key: LogicalKey, p: Phase, change: Change) {
    && (change.write.Doom? ==> change.write.id in jobs && jobs[change.write.id].key != key)
    && (change.write.Put? ==> p == Creating(change.write.id) && change.write.id !in jobs
                              && change.phase == Stored(change.write.id))
    && (CreatedId(p).Some? && own == key ==> CreatedId(change.phase) == CreatedId(p))
    && (CreatedId(change.phase).Some? && CreatedId(change.phase) != CreatedId(p) ==> change.write.Put?)
    && (p.Returned? ==> change.phase == p)
    && (ReplayedId(change.phase).Some? && ReplayedId(change.phase) != ReplayedId(p) ==>
          p.Searching? && Live(jobs, own, ReplayedId(change.phase).value))
  }

  lemma {:induction false} MovedQuietEarly(s: State, key: LogicalKey, own: LogicalKey, p: Phase, action: Action)
    requires Searches(action)
    requires IdSound(p, s.reserved, s.jobs) && KeySound(own, p, s.jobs)
    requires own == key ==> !action.Throw?
    ensures QuietChange(s.jobs, own, key, p, Act(s, own, p, action))
  {
  }

  lemma {:induction false} MovedQuietLate(s: State, key: LogicalKey, own: LogicalKey, p: Phase, action: Action)
    requires !Searches(action)
    requires IdSound(p, s.reserved, s.jobs) && KeySound(own, p, s.jobs)
    requires own == key ==> !action.Throw?
    ensures QuietChange(s.jobs, own, key, p, Act(s, own, p, action))
  {
  }

  lemma {:induction false} MovedQuiet(s: State, key: LogicalKey, own: LogicalKey, p: Phase, action: Action)
    requires IdSound(p, s.reserved, s.jobs) && KeySound(own, p, s.jobs)
    requires own == key ==> !action.Throw?
    ensures QuietChange(s.jobs, own, key, p, Act(s, own, p, action))
  {
    if Searches(action) {
      MovedQuietEarly(s, key, own, p, action);
    } else {
      MovedQuietLate(s, key, own, p, action);
    }
  }

  lemma {:induction false} KnownStays(calls: Calls, key: LogicalKey, start: State, phases: Phases, c: CallId,
                                      p: Phase, id: JobId)
    requires c in phases && (phases[c].Returned? ==> p == phases[c])
    requires Known(calls, key, start, phases, id)
    ensures Known(calls, key, start, phases[c := p], id)
  {
    if !Live(start.jobs, key, id) {
      var d :| d in calls && d in phases && calls[d] == key && phases[d] == Returned(id, true);
      assert phases[c := p][d] == Returned(id, true);
    }
  }

  lemma {:induction false} MadeStays(calls: Calls, key: LogicalKey, start: State, phases: Phases, c: CallId,
                                     p: Phase, id: JobId)
    requires c in phases && c in calls
    requires calls[c] == key && CreatedId(phases[c]).Some? ==> CreatedId(p) == CreatedId(phases[c])
    requires Made(calls, key, start, phases, id)
    ensures Made(calls, key, start, phases[c := p], id)
  {
    if !Live(start.jobs, key, id) {
      var d :| d in calls && d in phases && calls[d] == key && CreatedId(phases[d]) == Some(id);
      assert CreatedId(phases[c := p][d]) == Some(id);
    }
  }

  /** A search runs under the reservation, so a job it finds was created by a call that has returned. */
  lemma {:induction false} FoundIsKnown(calls: Calls, key: LogicalKey, start: State, s: State, c: CallId, id: JobId)
    requires c in calls && calls[c] == key && MutexInv(calls, s.phases, s.reservations) && s.phases[c].Searching?
    requires Made(calls, key, start, s.phases, id)
    ensures Known(calls, key, start, s.phases, id)
  {
    if !Live(start.jobs, key, id) {
      var d :| d in calls && d in s.phases && calls[d] == key && CreatedId(s.phases[d]) == Some(id);
      assert InOperation(s.phases[c]) && (InOperation(s.phases[d]) ==> d == c);
    }
  }

  lemma {:induction false} ChangeStaysQuiet(calls: Calls, key: LogicalKey, start: State, s: State, c: CallId,
                                            change: Change)
    requires c in calls && MutexInv(calls, s.phases, s.reservations) && QuietInv(calls, key, start, s)
    requires QuietChange(s.jobs, calls[c], key, s.phases[c], change)
    ensures QuietInv(calls, key, start, Apply(s, c, calls[c], change))
  {
    var s' := Apply(s, c, calls[c], change);
    var p, p' := s.phases[c], change.phase;
    forall d | d in calls && calls[d] == key && ReplayedId(s'.phases[d]).Some?
      ensures Known(calls, key, start, s'.phases, ReplayedId(s'.phases[d]).value)
      ensures Live(s'.jobs, key, ReplayedId(s'.phases[d]).value)
    {
      var id := ReplayedId(s'.phases[d]).value;
      if ReplayedId(s.phases[d]) != Some(id) {
        FoundIsKnown(calls, key, start, s, c, id);
      }
      KnownStays(calls, key, start, s.phases, c, p', id);
    }
    forall id | Live(s'.jobs, key, id)
      ensures Made(calls, key, start, s'.phases, id)
    {
      if Live(s.jobs, key, id) {
        MadeStays(calls, key, start, s.phases, c, p', id);
      } else {
        assert CreatedId(s'.phases[c]) == Some(id);
      }
    }
  }

  lemma {:induction false} DeletionStaysQuiet(calls: Calls, key: LogicalKey, start: State, s: State, id: JobId)
    requires s.phases.Keys == calls.Keys && QuietInv(calls, key, start, s) && id in s.deleting
    ensures QuietInv(calls, key, start, After(calls, s, DeletionLands(id)))
  {
    var s' := After(calls, s, DeletionLands(id));
    assert forall i :: Live(s'.jobs, key, i) <==> Live(s.jobs, key, i);
  }

  lemma {:induction false} StepStaysQuiet(calls: Calls, key: LogicalKey, start: State, s: State, step: Step)
    requires Inv(calls, s) && QuietInv(calls, key, start, s) && !Fails(calls, key, step)
    ensures QuietInv(calls, key, start, After(calls, s, step))
  {
    match step
    case On(c, action) =>
      if c in calls {
        assert IdSound(s.phases[c], s.reserved, s.jobs) && KeySound(calls[c], s.phases[c], s.jobs);
        MovedQuiet(s, key, calls[c], s.phases[c], action);
        ChangeStaysQuiet(calls, key, start, s, c, Act(s, calls[c], s.phases[c], action));
      }
    case DeletionLands(id) =>
      if id in s.deleting {
        DeletionStaysQuiet(calls, key, start, s, id);
      }
  }

  lemma {:induction false} RunStaysQuiet(calls: Calls, key: LogicalKey, start: State, steps: seq<Step>)
    requires Initial(calls, start) && NoFailure(calls, key, steps)
    ensures QuietInv(calls, key, start, Execute(calls, start, steps))
    decreases |steps|
  {
    if steps != [] {
      var n := |steps| - 1;
      assert NoFailure(calls, key, steps[..n]) && !Fails(calls, key, steps[n]);
      RunStaysQuiet(calls, key, start, steps[..n]);
      RunKeepsInv(calls, start, steps[..n]);
      StepStaysQuiet(calls, key, start, Execute(calls, start, steps[..n]), steps[n]);
    }
  }

  ghost predicate CreatedBySome(calls: Calls, key: LogicalKey, phases: Phases, id: JobId) {
    exists e | e in calls && e in phases :: calls[e] == key && phases[e] == Returned(id, true)
  }

  lemma {:induction false} QuietMeansOnce(calls: Calls, key: LogicalKey, start: State, s: State, c: CallId)
    requires s.phases.Keys == calls.Keys && QuietInv(calls, key, start, s) && OneLive(s.jobs)
    requires c in calls && calls[c] == key && s.phases[c].Returned?
    ensures var id := s.phases[c].id;
            && Live(s.jobs, key, id)
            && (CreatedBySome(calls, key, s.phases, id) <==> NoLive(start.jobs, key))
  {
    var id := s.phases[c].id;
    if s.phases[c].created {
      assert CreatedId(s.phases[c]) == Some(id);
    } else {
      assert ReplayedId(s.phases[c]) == Some(id);
    }
    if CreatedBySome(calls, key, s.phases, id) {
      var e :| e in calls && calls[e] == key && s.phases[e] == Returned(id, true);
      assert CreatedId(s.phases[e]) == Some(id);
      assert forall i | i in start.jobs :: Live(start.jobs, key, i) ==> Live(s.jobs, key, i) && i == id;
    } else {
      assert Known(calls, key, start, s.phases, id);
    }
  }

  /** Exactly-once creation: when no call with the key fails, all calls with it that have returned
    * returned the same job, which is still there; no two of them say that they created it, and one does
    * unless the key had a job from the start. */
  lemma {:induction false} CreatedExactlyOnce(calls: Calls, key: LogicalKey, start: State, steps: seq<Step>,
                                              c: CallId, d: CallId)
    requires Initial(calls, start) && NoFailure(calls, key, steps)
    requires c in calls && d in calls && calls[c] == key && calls[d] == key
    requires Execute(calls, start, steps).phases[c].Returned? && Execute(calls, start, steps).phases[d].Returned?
    ensures var s := Execute(calls, start, steps);
            && s.phases[c].id == s.phases[d].id
            && Live(s.jobs, key, s.phases[c].id)
            && (s.phases[c].created && s.phases[d].created ==> c == d)
            && (CreatedBySome(calls, key, s.phases, s.phases[c].id) <==> NoLive(start.jobs, key))
  {
    RunKeepsInv(calls, start, steps);
    RunStaysQuiet(calls, key, start, steps);
    var s := Execute(calls, start, steps);
    QuietMeansOnce(calls, key, start, s, c);
    QuietMeansOnce(calls, key, start, s, d);
    assert s.phases[c].created && s.phases[d].created ==> CreatedId(s.phases[c]) == CreatedId(s.phases[d]);
  }

  // ---------- the search skips nothing ----------

  /** At some point of the run the id was reserved or stored. */
  ghost predicate WasTaken(calls: Calls, start: State, steps: seq<Step>, id: JobId)
    requires start.phases.Keys == calls.Keys
  {
    exists i: nat | i <= |steps| :: TakenIn(Execute(calls, start, steps[..i]), id)
  }

  predicate TakenIn(s: State, id: JobId) {
    id in s.reserved || id in s.jobs
  }

  lemma {:induction false} StaysTaken(calls: Calls, start: State, steps: seq<Step>, step: Step, id: JobId)
    requires start.phases.Keys == calls.Keys
    ensures WasTaken(calls, start, steps, id) ==> WasTaken(calls, start, steps + [step], id)
    ensures TakenIn(Execute(calls, start, steps), id) ==> WasTaken(calls, start, steps + [step], id)
  {
    var longer := steps + [step];
    forall i: nat | i <= |steps| ensures longer[..i] == steps[..i] {
    }
    assert steps[..|steps|] == steps;
    if WasTaken(calls, start, steps, id) {
      var i: nat :| i <= |steps| && TakenIn(Execute(calls, start, steps[..i]), id);
      assert TakenIn(Execute(calls, start, longer[..i]), id);
    }
    if TakenIn(Execute(calls, start, steps), id) {
      assert TakenIn(Execute(calls, start, longer[..|steps|]), id);
    }
  }

  predicate InLoop(p: Phase) {
    p.Scanning? || p.Probing? || p.Probed?
  }

  /** One action moves the search by at most one candidate, and only past one that is taken. */
  predicate SearchMoves(s: State, p: Phase, p': Phase) {
    InLoop(p') ==>
      || (p.LookingUpLatest? && p'.first == p'.sequence && !p'.Probed?)
      || (InLoop(p) && p'.date == p.date && p'.first == p.first
          && (p'.sequence == p.sequence
              || (p'.sequence == p.sequence + 1
                  && (TakenIn(s, Candidate(p.date, p.sequence)) || (p.Probed? && p.taken))))
          && (p'.Probed? && p'.taken ==> p == p' || TakenIn(s, Candidate(p'.date, p'.sequence))))
  }

  lemma {:induction false} ActSearches(s: State, key: LogicalKey, p: Phase, action: Action)
    ensures SearchMoves(s, p, Act(s, key, p, action).phase)
  {
  }

  ghost predicate SkippedTaken(calls: Calls, start: State, steps: seq<Step>, p: Phase)
    requires start.phases.Keys == calls.Keys
  {
    InLoop(p) ==>
      && p.first <= p.sequence
      && (forall k | p.first <= k < p.sequence :: WasTaken(calls, start, steps, Candidate(p.date, k)))
      && (p.Probed? && p.taken ==> WasTaken(calls, start, steps, Candidate(p.date, p.sequence)))
  }

  lemma {:induction false} MoveSkips(calls: Calls, start: State, steps: seq<Step>, step: Step, p: Phase, p': Phase)
    requires start.phases.Keys == calls.Keys && SkippedTaken(calls, start, steps, p)
    requires p' == p || SearchMoves(Execute(calls, start, steps), p, p')
    ensures SkippedTaken(calls, start, steps + [step], p')
  {
    if InLoop(p') {
      forall k: nat ensures var id := Candidate(p'.date, k);
                            (WasTaken(calls, start, steps, id) || TakenIn(Execute(calls, start, steps), id)) ==>
                              WasTaken(calls, start, steps + [step], id)
      {
        StaysTaken(calls, start, steps, step, Candidate(p'.date, k));
      }
    }
  }

  /** In every interleaving, whatever the latest-job lookup answers: a search has passed over a candidate
    * only if its id was reserved or stored at some point of the run. */
  lemma {:induction false} SearchSkipsOnlyTaken(calls: Calls, start: State, steps: seq<Step>, c: CallId)
    requires Initial(calls, start) && c in calls
    ensures SkippedTaken(calls, start, steps, Execute(calls, start, steps).phases[c])
    decreases |steps|
  {
    if steps != [] {
      var n := |steps| - 1;
      var s, step := Execute(calls, start, steps[..n]), steps[n];
      SearchSkipsOnlyTaken(calls, start, steps[..n], c);
      if step.On? && step.call == c {
        ActSearches(s, calls[c], s.phases[c], step.action);
      }
      MoveSkips(calls, start, steps[..n], step, s.phases[c], Execute(calls, start, steps).phases[c]);
      assert steps == steps[..n] + [step];
    }
  }

  // ---------- nothing is left over ----------

  /** The job was there from the start, is deleted or about to be, or belongs to a call that has stored or
    * returned it. */
  ghost predicate Accounted(start: State, s: State, id: JobId) {
    || id in start.jobs || id in s.deleting || (id in s.jobs && s.jobs[id].deleted)
    || exists c | c in s.phases :: CreatedId(s.phases[c]) == Some(id)
  }

  lemma {:induction false} MovedAccount(s: State, key: LogicalKey, p: Phase, action: Action)
    requires CreatedId(p).Some? ==> CreatedId(p).value in s.jobs
    ensures var change := Act(s, key, p, action);
            && (change.write.Put? ==> CreatedId(change.phase) == Some(change.write.id))
            && (CreatedId(p).Some? ==>
                  CreatedId(change.phase) == CreatedId(p) || change.write == Doom(CreatedId(p).value))
  {
  }

  lemma {:induction false} ChangeKeepsAccount(start: State, s: State, c: CallId, key: LogicalKey, change: Change,
                                              id: JobId)
    requires c in s.phases && (id in s.jobs ==> Accounted(start, s, id)) && id in Apply(s, c, key, change).jobs
    requires change.write.Put? ==> CreatedId(change.phase) == Some(change.write.id)
    requires CreatedId(s.phases[c]).Some? ==>
               CreatedId(change.phase) == CreatedId(s.phases[c]) || change.write == Doom(CreatedId(s.phases[c]).value)
    ensures Accounted(start, Apply(s, c, key, change), id)
  {
    var s' := Apply(s, c, key, change);
    if change.write == Put(id) {
      assert CreatedId(s'.phases[c]) == Some(id);
    } else if exists d | d in s.phases :: CreatedId(s.phases[d]) == Some(id) {
      var d :| d in s.phases && CreatedId(s.phases[d]) == Some(id);
      if id !in s'.deleting {
        assert CreatedId(s'.phases[d]) == Some(id);
      }
    }
  }

  lemma {:induction false} StepKeepsAccount(calls: Calls, start: State, s: State, step: Step, id: JobId)
    requires Inv(calls, s) && (id in s.jobs ==> Accounted(start, s, id)) && id in After(calls, s, step).jobs
    ensures Accounted(start, After(calls, s, step), id)
  {
    match step
    case On(c, action) =>
      if c in calls {
        assert KeySound(calls[c], s.phases[c], s.jobs);
        MovedAccount(s, calls[c], s.phases[c], action);
        ChangeKeepsAccount(start, s, c, calls[c], Act(s, calls[c], s.phases[c], action), id);
      }
    case DeletionLands(i) =>
      var s' := After(calls, s, step);
      assert s'.phases == s.phases;
      if exists c | c in s.phases :: CreatedId(s.phases[c]) == Some(id) {
        var c :| c in s.phases && CreatedId(s.phases[c]) == Some(id);
        assert CreatedId(s'.phases[c]) == Some(id);
      }
  }

  /** In every interleaving, failures included, no creation that failed leaves a job behind: what is neither
    * deleted nor about to be was there before or is the job of a call that stands by it. */
  lemma {:induction false} NoOrphans(calls: Calls, start: State, steps: seq<Step>, id: JobId)
    requires Initial(calls, start) && id in Execute(calls, start, steps).jobs
    ensures Accounted(start, Execute(calls, start, steps), id)
    decreases |steps|
  {
    if steps != [] {
      var n := |steps| - 1;
      var before := Execute(calls, start, steps[..n]);
      if id in before.jobs {
        NoOrphans(calls, start, steps[..n], id);
      }
      RunKeepsInv(calls, start, steps[..n]);
      StepKeepsAccount(calls, start, before, steps[n], id);
    }
  }

  // ---------- progress ----------

  predicate Done(p: Phase) {
    p.Returned? || p.Threw?
  }

  /** An action that moves a call in operation which does not wait for an id lock. */
  lemma {:induction false} WorkingMoves(s: State, key: LogicalKey, p: Phase) returns (action: Action)
    requires InOperation(p) && !p.WaitingForIds?
    ensures Act(s, key, p, action).phase != p
  {
    match p
    case Searching =>
      if id :| Live(s.jobs, key, id) {
        action := ReadExisting(Some(id));
      } else {
        action := ReadExisting(None);
      }
    case Answered(found) => action := if found.Some? then Replay else AskForId("20260101");
    case LookingUpLatest(_) => action := ReadLatest(None);
    case Scanning(_, _, _) => action := Probe;
    case Probing(_, _, _) => action := ReadExists;
    case Probed(_, _, _, _) => action := Decide;
    case Unlocking(_, _) => action := Unlock;
    case Creating(_) => action := Store;
    case Stored(_) => action := Finish;
    case Cleaning(_) => action := EndCleanup;
  }

  /** The call waits for an id lock and the awaited call still holds it. */
  predicate AwaitsHolder(phases: Phases, p: Phase) {
    p.WaitingForIds? && p.behind in phases && LockOf(phases[p.behind]) == Some(p.date)
  }

  /** A call that waits for an id lock asks again when the awaited holder is done; if another call has
    * taken the lock meanwhile, it waits for that one. */
  lemma {:induction false} WaiterAsks(phases: Phases, s: State, key: LogicalKey, p: Phase)
    requires LockInv(phases, s.idLocks) && phases == s.phases && p.WaitingForIds? && IsDate(p.date)
    requires !AwaitsHolder(phases, p)
    ensures Act(s, key, p, AskForId(p.date)).phase != p
  {
    if p.date in s.idLocks {
      assert LockOf(phases[s.idLocks[p.date]]) == Some(p.date);
    }
  }

  /** The action takes the call from one phase to another. */
  ghost predicate Moves(calls: Calls, s: State, c: CallId, action: Action)
    requires s.phases.Keys == calls.Keys
  {
    c in calls && After(calls, s, On(c, action)).phases[c] != s.phases[c]
  }

  lemma {:induction false} HolderMoves(calls: Calls, s: State, d: CallId) returns (action: Action)
    requires s.phases.Keys == calls.Keys && d in calls && InOperation(s.phases[d]) && !s.phases[d].WaitingForIds?
    ensures Moves(calls, s, d, action)
  {
    action := WorkingMoves(s, calls[d], s.phases[d]);
  }

  lemma {:induction false} AskerMoves(calls: Calls, s: State, c: CallId) returns (action: Action)
    requires s.phases.Keys == calls.Keys && LockInv(s.phases, s.idLocks) && c in calls
    requires s.phases[c].WaitingForIds? && IsDate(s.phases[c].date)
    requires !AwaitsHolder(s.phases, s.phases[c])
    ensures Moves(calls, s, c, action)
  {
    var p := s.phases[c];
    action := AskForId(p.date);
    WaiterAsks(s.phases, s, calls[c], p);
  }

  lemma {:induction false} OperationMoves(calls: Calls, s: State, c: CallId) returns (d: CallId, action: Action)
    requires s.phases.Keys == calls.Keys && LockInv(s.phases, s.idLocks) && c in calls && InOperation(s.phases[c])
    requires s.phases[c].WaitingForIds? ==> IsDate(s.phases[c].date)
    ensures Moves(calls, s, d, action)
  {
    if AwaitsHolder(s.phases, s.phases[c]) {
      d := s.phases[c].behind;
      action := HolderMoves(calls, s, d);
    } else if s.phases[c].WaitingForIds? {
      d := c;
      action := AskerMoves(calls, s, c);
    } else {
      d := c;
      action := HolderMoves(calls, s, c);
    }
  }

  lemma {:induction false} EntrantMoves(calls: Calls, s: State, c: CallId)
    requires MutexInv(calls, s.phases, s.reservations) && c in calls && MayEnter(s, s.phases[c])
    ensures Moves(calls, s, c, Enter)
  {
    var k := ReservationKey(calls[c]);
    if k in s.reservations {
      assert InOperation(s.phases[s.reservations[k]]);
    }
  }

  /** No deadlock: in every reachable state, as long as some call is not done, some call can move: the
    * two mutexes never wait for each other in a circle. */
  lemma {:induction false} SomeCallMoves(calls: Calls, start: State, steps: seq<Step>, c: CallId)
    returns (d: CallId, action: Action)
    requires Initial(calls, start) && c in calls && !Done(Execute(calls, start, steps).phases[c])
    ensures Moves(calls, Execute(calls, start, steps), d, action)
  {
    RunKeepsInv(calls, start, steps);
    var s := Execute(calls, start, steps);
    var p := s.phases[c];
    if InOperation(p) {
      assert IdSound(p, s.reserved, s.jobs);
      d, action := OperationMoves(calls, s, c);
    } else if p.Waiting? && p.behind in s.phases && InOperation(s.phases[p.behind]) {
      assert IdSound(s.phases[p.behind], s.reserved, s.jobs);
      d, action := OperationMoves(calls, s, p.behind);
    } else {
      d, action := c, Enter;
      EntrantMoves(calls, s, c);
    }
  }

  predicate Failing(p: Phase) {
    p.Threw? || p.Cleaning?
  }

  /** A call fails by an action exactly in these two cases. */
  predicate MayFail(p: Phase, action: Action) {
    || (action.Throw? && InOperation(p) && !p.Unlocking?)
    || (action.Probe? && p.Scanning? && p.sequence >= p.first + 1000)
  }

  lemma {:induction false} FailsEarly(s: State, key: LogicalKey, p: Phase, action: Action)
    requires !Failing(p) && Searches(action)
    ensures Failing(Act(s, key, p, action).phase) <==> MayFail(p, action)
  {
  }

  lemma {:induction false} FailsLate(s: State, key: LogicalKey, p: Phase, action: Action)
    requires !Failing(p) && !Searches(action) && (p.Creating? ==> p.id !in s.jobs)
    ensures Failing(Act(s, key, p, action).phase) <==> MayFail(p, action)
  {
  }

  /** In every reachable state a call fails exactly when an exception is thrown in its operation or its
    * search has gone through a thousand candidates: storing the record never does. */
  lemma {:induction false} CallFailsExactly(calls: Calls, start: State, steps: seq<Step>, c: CallId, action: Action)
    requires Initial(calls, start) && c in calls && !Failing(Execute(calls, start, steps).phases[c])
    ensures var s := Execute(calls, start, steps);
            Failing(After(calls, s, On(c, action)).phases[c]) <==> MayFail(s.phases[c], action)
  {
    JobIdsAreNeverShared(calls, start, steps);
    var s := Execute(calls, start, steps);
    if Searches(action) {
      FailsEarly(s, calls[c], s.phases[c], action);
    } else {
      FailsLate(s, calls[c], s.phases[c], action);
    }
  }

  lemma {:induction false} OneMore(calls: Calls, start: State, steps: seq<Step>, step: Step)
    requires start.phases.Keys == calls.Keys
    ensures Execute(calls, start, steps + [step]) == After(calls, Execute(calls, start, steps), step)
  {
    assert (steps + [step])[..|steps|] == steps;
  }

  /** The steps of one call up to the id it will use. */
  function SearchAlone(c: CallId, date: string, latest: Option<nat>): seq<Step> {
    [] + [On(c, Enter)] + [On(c, ReadExisting(None))] + [On(c, AskForId(date))] + [On(c, ReadLatest(latest))]
    + [On(c, Probe)] + [On(c, ReadExists)] + [On(c, Decide)]
  }

  function CreateAlone(c: CallId, date: string, latest: Option<nat>): seq<Step> {
    SearchAlone(c, date, latest) + [On(c, Unlock)] + [On(c, Store)] + [On(c, Finish)]
  }

  /** The state with one call under way in `phase`, holding the reservation of its key, the given id locks
    * and the given ids. */
  function Only(start: State, c: CallId, key: LogicalKey, phase: Phase, locks: map<string, CallId>,
                ids: set<JobId>): State
  {
    State(map[ReservationKey(key) := c], locks, ids, start.jobs, {}, start.phases[c := phase])
  }

  lemma {:induction false} AloneLooks(calls: Calls, start: State, c: CallId, date: string)
    requires Initial(calls, start) && c in calls && IsDate(date) && NoLive(start.jobs, calls[c])
    ensures Execute(calls, start, [] + [On(c, Enter)] + [On(c, ReadExisting(None))] + [On(c, AskForId(date))])
            == Only(start, c, calls[c], LookingUpLatest(date), map[date := c], {})
  {
    var key := calls[c];
    var a := [] + [On(c, Enter)];
    var b := a + [On(c, ReadExisting(None))];
    OneMore(calls, start, [], On(c, Enter));
    OneMore(calls, start, a, On(c, ReadExisting(None)));
    OneMore(calls, start, b, On(c, AskForId(date)));
    assert Execute(calls, start, a) == Only(start, c, key, Searching, map[], {});
    assert Execute(calls, start, b) == Only(start, c, key, Answered(None), map[], {});
  }

  lemma {:induction false} AloneStep(calls: Calls, start: State, steps: seq<Step>, c: CallId, action: Action, s: State,
                                     change: Change, s': State)
    requires Initial(calls, start) && c in calls && Execute(calls, start, steps) == s
    requires Act(s, calls[c], s.phases[c], action) == change && Apply(s, c, calls[c], change) == s'
    ensures Execute(calls, start, steps + [On(c, action)]) == s'
  {
    OneMore(calls, start, steps, On(c, action));
  }

  lemma {:induction false} AloneScans(calls: Calls, start: State, steps: seq<Step>, c: CallId, date: string,
                                      latest: Option<nat>)
    requires Initial(calls, start) && c in calls
    requires Execute(calls, start, steps) == Only(start, c, calls[c], LookingUpLatest(date), map[date := c], {})
    ensures var first := FirstSequence(latest);
            Execute(calls, start, steps + [On(c, ReadLatest(latest))])
            == Only(start, c, calls[c], Scanning(date, first, first), map[date := c], {})
  {
    var first := FirstSequence(latest);
    AloneStep(calls, start, steps, c, ReadLatest(latest), Execute(calls, start, steps),
              Go(Scanning(date, first, first)),
              Only(start, c, calls[c], Scanning(date, first, first), map[date := c], {}));
  }

  lemma {:induction false} AloneProbes(calls: Calls, start: State, steps: seq<Step>, c: CallId, date: string, n: nat)
    requires Initial(calls, start) && c in calls
    requires Execute(calls, start, steps) == Only(start, c, calls[c], Scanning(date, n, n), map[date := c], {})
    ensures Execute(calls, start, steps + [On(c, Probe)])
            == Only(start, c, calls[c], Probing(date, n, n), map[date := c], {})
  {
    AloneStep(calls, start, steps, c, Probe, Execute(calls, start, steps), Go(Probing(date, n, n)),
              Only(start, c, calls[c], Probing(date, n, n), map[date := c], {}));
  }

  lemma {:induction false} AloneReads(calls: Calls, start: State, steps: seq<Step>, c: CallId, date: string, n: nat)
    requires Initial(calls, start) && c in calls && Candidate(date, n) !in start.jobs
    requires Execute(calls, start, steps) == Only(start, c, calls[c], Probing(date, n, n), map[date := c], {})
    ensures Execute(calls, start, steps + [On(c, ReadExists)])
            == Only(start, c, calls[c], Probed(date, n, n, false), map[date := c], {})
  {
    AloneStep(calls, start, steps, c, ReadExists, Execute(calls, start, steps), Go(Probed(date, n, n, false)),
              Only(start, c, calls[c], Probed(date, n, n, false), map[date := c], {}));
  }

  lemma {:induction false} AloneDecides(calls: Calls, start: State, steps: seq<Step>, c: CallId, date: string, n: nat)
    requires Initial(calls, start) && c in calls
    requires Execute(calls, start, steps) == Only(start, c, calls[c], Probed(date, n, n, false), map[date := c], {})
    ensures var id := Candidate(date, n);
            Execute(calls, start, steps + [On(c, Decide)])
            == Only(start, c, calls[c], Unlocking(date, id), map[date := c], {id})
  {
    var id := Candidate(date, n);
    AloneStep(calls, start, steps, c, Decide, Execute(calls, start, steps), Go(Unlocking(date, id)).(id := Take(id)),
              Only(start, c, calls[c], Unlocking(date, id), map[date := c], {id}));
  }

  lemma {:induction false} SearchEnds(calls: Calls, start: State, c: CallId, date: string, latest: Option<nat>)
    requires Initial(calls, start) && c in calls && IsDate(date) && NoLive(start.jobs, calls[c])
    requires Candidate(date, FirstSequence(latest)) !in start.jobs
    ensures var id := Candidate(date, FirstSequence(latest));
            Execute(calls, start, SearchAlone(c, date, latest))
            == Only(start, c, calls[c], Unlocking(date, id), map[date := c], {id})
  {
    var d := [] + [On(c, Enter)] + [On(c, ReadExisting(None))] + [On(c, AskForId(date))];
    AloneLooks(calls, start, c, date);
    var e := d + [On(c, ReadLatest(latest))];
    var n := FirstSequence(latest);
    AloneScans(calls, start, d, c, date, latest);
    AloneProbes(calls, start, e, c, date, n);
    AloneReads(calls, start, e + [On(c, Probe)], c, date, n);
    AloneDecides(calls, start, e + [On(c, Probe)] + [On(c, ReadExists)], c, date, n);
  }

  lemma {:induction false} AloneUnlocks(calls: Calls, start: State, steps: seq<Step>, c: CallId, date: string,
                                        id: JobId)
    requires Initial(calls, start) && c in calls
    requires Execute(calls, start, steps) == Only(start, c, calls[c], Unlocking(date, id), map[date := c], {id})
    ensures Execute(calls, start, steps + [On(c, Unlock)]) == Only(start, c, calls[c], Creating(id), map[], {id})
  {
    AloneStep(calls, start, steps, c, Unlock, Execute(calls, start, steps), Go(Creating(id)).(lock := Drop(date)),
              Only(start, c, calls[c], Creating(id), map[], {id}));
  }

  /** The new record is in the store and the call about to return it. */
  function OnlyStored(start: State, c: CallId, key: LogicalKey, id: JobId): State {
    Only(start, c, key, Stored(id), map[], {id}).(jobs := start.jobs[id := Job(key, false)])
  }

  lemma {:induction false} AloneStores(calls: Calls, start: State, steps: seq<Step>, c: CallId, id: JobId)
    requires Initial(calls, start) && c in calls && id !in start.jobs
    requires Execute(calls, start, steps) == Only(start, c, calls[c], Creating(id), map[], {id})
    ensures Execute(calls, start, steps + [On(c, Store)]) == OnlyStored(start, c, calls[c], id)
  {
    AloneStep(calls, start, steps, c, Store, Execute(calls, start, steps), Go(Stored(id)).(write := Put(id)),
              OnlyStored(start, c, calls[c], id));
  }

  lemma {:induction false} AloneFinishes(calls: Calls, start: State, steps: seq<Step>, c: CallId, id: JobId)
    requires Initial(calls, start) && c in calls && Execute(calls, start, steps) == OnlyStored(start, c, calls[c], id)
    ensures Execute(calls, start, steps + [On(c, Finish)])
            == State(map[], map[], {}, start.jobs[id := Job(calls[c], false)], {},
                     start.phases[c := Returned(id, true)])
  {
    AloneStep(calls, start, steps, c, Finish, Execute(calls, start, steps),
              Change(Returned(id, true), Drop(ReservationKey(calls[c])), Keep, Drop(id), NoWrite),
              State(map[], map[], {}, start.jobs[id := Job(calls[c], false)], {},
                    start.phases[c := Returned(id, true)]));
  }

  /** A creation that nobody disturbs returns a new job under the first candidate, stored and live, and
    * leaves no lock, reservation or reserved id behind. */
  lemma {:induction false} CreationReturns(calls: Calls, start: State, c: CallId, date: string, latest: Option<nat>)
    requires Initial(calls, start) && c in calls && IsDate(date) && NoLive(start.jobs, calls[c])
    requires Candidate(date, if latest.Some? then latest.value + 1 else 1) !in start.jobs
    ensures var s := Execute(calls, start, CreateAlone(c, date, latest));
            var id := Candidate(date, if latest.Some? then latest.value + 1 else 1);
            && s.phases == start.phases[c := Returned(id, true)]
            && s.jobs == start.jobs[id := Job(calls[c], false)]
            && s.reservations == map[] && s.idLocks == map[] && s.reserved == {}
  {
    var id, search := Candidate(date, FirstSequence(latest)), SearchAlone(c, date, latest);
    SearchEnds(calls, start, c, date, latest);
    AloneUnlocks(calls, start, search, c, date, id);
    AloneStores(calls, start, search + [On(c, Unlock)], c, id);
    AloneFinishes(calls, start, search + [On(c, Unlock)] + [On(c, Store)], c, id);
  }

  /** A creation whose key has a live job is answered with that job and changes nothing. */
  lemma {:induction false} ReplayReturns(calls: Calls, start: State, c: CallId, id: JobId)
    requires Initial(calls, start) && c in calls && Live(start.jobs, calls[c], id)
    ensures var s := Execute(calls, start, [] + [On(c, Enter)] + [On(c, ReadExisting(Some(id)))] + [On(c, Replay)]);
            s == start.(phases := start.phases[c := Returned(id, false)])
  {
    var key := calls[c];
    var a := [] + [On(c, Enter)];
    var b := a + [On(c, ReadExisting(Some(id)))];
    var searching := Only(start, c, key, Searching, map[], {});
    var answered := Only(start, c, key, Answered(Some(id)), map[], {});
    AloneStep(calls, start, [], c, Enter, start, Go(Searching).(reservation := Take(ReservationKey(key))), searching);
    AloneStep(calls, start, a, c, ReadExisting(Some(id)), searching, Go(Answered(Some(id))), answered);
    AloneStep(calls, start, b, c, Replay, answered,
              Change(Returned(id, false), Drop(ReservationKey(key)), Keep, Keep, NoWrite),
              start.(phases := start.phases[c := Returned(id, false)]));
  }
}
