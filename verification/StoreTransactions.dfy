/** Optimistic transactions over the store, with every suspension point an interleaving point
  * (backend/src/db/sqliteStore.js, `transact`). Several calls, in one process or in several sharing the
  * file, read the revision, read the value, wait for their updater and then try to commit. */
module StoreTransactions {
  import opened Wrappers
  import opened JsonTree
  import opened DocumentTable

  type CallId = nat

  /** One `transact` call. `allows(existing, next)` holds when the updater may answer `next` to
    * `existing`; `None` is its explicit abort. */
  datatype Call = Call(path: Path, allows: (Json, Option<Json>) -> bool, maxRetries: nat)

  type Calls = map<CallId, Call>

  /** Where a call stands. `started` is the number of commits the store had when the call began. */
  datatype Phase =
    | NotStarted
    | Trying(attempt: nat, started: nat)
    | SawRevision(attempt: nat, started: nat, before: nat)
    | InUpdater(attempt: nat, started: nat, before: nat, existing: Json)
    | Committed(next: Json)
    | Aborted
    | Contended(started: nat)
    | Failed

  datatype Commit =
    | Direct(path: Path, value: Json, merge: bool)
    | ByCall(call: CallId, path: Path, input: Json, next: Json)

  datatype State = State(rows: Rows, revision: nat, phases: map<CallId, Phase>, log: seq<Commit>)

  datatype Step =
    | WriteDirectly(path: Path, value: Json, merge: bool)
    | Begin(call: CallId)
    | ReadRevision(call: CallId)
    | ReadValue(call: CallId)
    | UpdaterReturns(call: CallId, answer: Option<Json>)
    | UpdaterThrows(call: CallId)

  ghost predicate Initial(calls: Calls, s: State) {
    && WellFormed(s.rows) && s.log == []
    && s.phases.Keys == calls.Keys
    && forall c | c in calls :: s.phases[c] == NotStarted
  }

  /** The commit attempt of a call whose write comes out as `r`. */
  ghost function Attempted(s: State, commit: Commit, r: Result<Rows, TreeError>): State
    requires commit.ByCall?
  {
    var c := commit.call;
    if r.Err? then s.(phases := s.phases[c := Failed])
    else State(r.value, s.revision + 1, s.phases[c := Committed(commit.next)], s.log + [commit])
  }

  /** What one step makes of a state; a step that is not enabled changes nothing. */
  ghost function After(calls: Calls, s: State, step: Step): State
    requires WellFormed(s.rows) && s.phases.Keys == calls.Keys
  {
    match step
    case WriteDirectly(path, value, merge) =>
      var r := Write(s.rows, path, value, merge);
      if r.Err? then s
      else s.(rows := r.value, revision := s.revision + 1, log := s.log + [Direct(path, value, merge)])
    case Begin(c) =>
      if c in calls && s.phases[c].NotStarted? then s.(phases := s.phases[c := Trying(0, |s.log|)]) else s
    case ReadRevision(c) =>
      if c in calls && s.phases[c].Trying? then
        var p := s.phases[c];
        if p.attempt < calls[c].maxRetries
        then s.(phases := s.phases[c := SawRevision(p.attempt, p.started, s.revision)])
        else s.(phases := s.phases[c := Contended(p.started)])
      else s
    case ReadValue(c) =>
      if c in calls && s.phases[c].SawRevision? then
        var p := s.phases[c];
        s.(phases := s.phases[c := InUpdater(p.attempt, p.started, p.before, Get(Tree(s.rows), calls[c].path))])
      else s
    case UpdaterReturns(c, answer) =>
      if c in calls && s.phases[c].InUpdater? && calls[c].allows(s.phases[c].existing, answer) then
        var p := s.phases[c];
        if answer.None? then s.(phases := s.phases[c := Aborted])
        else if s.revision != p.before then s.(phases := s.phases[c := Trying(p.attempt + 1, p.started)])
        else Attempted(s, ByCall(c, calls[c].path, p.existing, answer.value),
                       Write(s.rows, calls[c].path, answer.value, false))
      else s
    case UpdaterThrows(c) =>
      if c in calls && s.phases[c].InUpdater? then s.(phases := s.phases[c := Failed]) else s
  }

  ghost function Execute(calls: Calls, s: State, steps: seq<Step>): (r: State)
    requires WellFormed(s.rows) && s.phases.Keys == calls.Keys
    ensures WellFormed(r.rows) && r.phases.Keys == calls.Keys
    decreases |steps|
  {
    if steps == [] then s
    else
      var before := Execute(calls, s, steps[..|steps| - 1]);
      AfterKeepsShape(calls, before, steps[|steps| - 1]);
      After(calls, before, steps[|steps| - 1])
  }

  lemma {:induction false} AfterKeepsShape(calls: Calls, s: State, step: Step)
    requires WellFormed(s.rows) && s.phases.Keys == calls.Keys
    ensures WellFormed(After(calls, s, step).rows) && After(calls, s, step).phases.Keys == calls.Keys
  {
    match step
    case WriteDirectly(path, value, merge) =>
      WriteKeepsWellFormed(s.rows, path, value, merge);
    case UpdaterReturns(c, answer) =>
      if c in calls && answer.Some? {
        WriteKeepsWellFormed(s.rows, calls[c].path, answer.value, false);
      }
    case _ =>
  }

  // ---------- the sequential reading of the log ----------

  function WriteOf(commit: Commit): (Path, Json, bool) {
    match commit
    case Direct(path, value, merge) => (path, value, merge)
    case ByCall(_, path, _, next) => (path, next, false)
  }

  ghost predicate Applies(rows: Rows, commit: Commit)
    requires WellFormed(rows)
  {
    var w := WriteOf(commit);
    Write(rows, w.0, w.1, w.2).Ok?
  }

  ghost function Apply(rows: Rows, commit: Commit): (r: Rows)
    requires WellFormed(rows)
    ensures WellFormed(r)
  {
    var w := WriteOf(commit);
    WriteKeepsWellFormed(rows, w.0, w.1, w.2);
    var r := Write(rows, w.0, w.1, w.2);
    if r.Ok? then r.value else rows
  }

  /** All commits of a log, one after another. */
  ghost function Replay(rows: Rows, log: seq<Commit>): (r: Rows)
    requires WellFormed(rows)
    ensures WellFormed(r)
    decreases |log|
  {
    if log == [] then rows else Apply(Replay(rows, log[..|log| - 1]), log[|log| - 1])
  }

  /** A commit made on top of `rows` took effect; a call's updater read exactly `rows` and answered
    * the value committed. */
  ghost predicate ExactCommit(calls: Calls, rows: Rows, commit: Commit)
    requires WellFormed(rows)
  {
    && Applies(rows, commit)
    && (commit.ByCall? ==>
          && commit.call in calls
          && commit.path == calls[commit.call].path
          && commit.input == Get(Tree(rows), commit.path)
          && calls[commit.call].allows(commit.input, Some(commit.next)))
  }

  /** Every commit was made on exactly the state left by the commits before it. */
  ghost predicate ExactLog(calls: Calls, rows: Rows, log: seq<Commit>)
    requires WellFormed(rows)
    decreases |log|
  {
    log == [] ||
    (var n := |log| - 1;
     ExactLog(calls, rows, log[..n]) && ExactCommit(calls, Replay(rows, log[..n]), log[n]))
  }

  function CommitsOf(log: seq<Commit>, c: CallId): nat {
    if log == [] then 0
    else CommitsOf(log[..|log| - 1], c) + (if log[|log| - 1].ByCall? && log[|log| - 1].call == c then 1 else 0)
  }

  ghost predicate PhaseInv(calls: Calls, start: State, s: State, c: CallId)
    requires c in calls && c in s.phases && WellFormed(s.rows)
  {
    && (CommitsOf(s.log, c) == if s.phases[c].Committed? then 1 else 0)
    && match s.phases[c]
       case Trying(attempt, started) => |s.log| >= started + attempt && attempt <= calls[c].maxRetries
       case SawRevision(attempt, started, before) =>
         before <= s.revision && before >= start.revision + started + attempt && attempt < calls[c].maxRetries
       case InUpdater(attempt, started, before, existing) =>
         && before <= s.revision && before >= start.revision + started + attempt && attempt < calls[c].maxRetries
         && (before == s.revision ==> existing == Get(Tree(s.rows), calls[c].path))
       case Contended(started) => |s.log| >= started + calls[c].maxRetries
       case _ => true
  }

  ghost predicate Inv(calls: Calls, start: State, s: State) {
    && WellFormed(start.rows) && WellFormed(s.rows) && s.phases.Keys == calls.Keys
    && s.rows == Replay(start.rows, s.log)
    && s.revision == start.revision + |s.log|
    && ExactLog(calls, start.rows, s.log)
    && forall c | c in calls :: PhaseInv(calls, start, s, c)
  }

  lemma {:induction false} Appended(calls: Calls, start: State, s: State, commit: Commit)
    requires Inv(calls, start, s) && ExactCommit(calls, s.rows, commit)
    ensures Replay(start.rows, s.log + [commit]) == Apply(s.rows, commit)
    ensures ExactLog(calls, start.rows, s.log + [commit])
    ensures forall c :: CommitsOf(s.log + [commit], c)
                     == CommitsOf(s.log, c) + (if commit.ByCall? && commit.call == c then 1 else 0)
  {
    var log' := s.log + [commit];
    assert log'[..|log'| - 1] == s.log;
  }

  /** A call that does not move keeps its clause while others commit. */
  lemma {:induction false} IdlePhase(calls: Calls, start: State, s: State, s': State, c: CallId)
    requires c in calls && c in s.phases && c in s'.phases && WellFormed(s.rows) && WellFormed(s'.rows)
    requires PhaseInv(calls, start, s, c) && s'.phases[c] == s.phases[c]
    requires CommitsOf(s'.log, c) == CommitsOf(s.log, c)
    requires (s'.rows == s.rows && s'.revision == s.revision && s'.log == s.log)
          || (s'.revision == s.revision + 1 && |s'.log| == |s.log| + 1)
    ensures PhaseInv(calls, start, s', c)
  {
  }

  ghost predicate SameStore(s: State, s': State) {
    s'.rows == s.rows && s'.revision == s.revision && s'.log == s.log
  }

  ghost predicate MadeCommit(calls: Calls, s: State, s': State, commit: Commit)
    requires WellFormed(s.rows)
  {
    && ExactCommit(calls, s.rows, commit)
    && s'.rows == Apply(s.rows, commit) && s'.revision == s.revision + 1 && s'.log == s.log + [commit]
  }

  lemma {:induction false} AnswerExact(calls: Calls, start: State, s: State, c: CallId, next: Json)
    requires Inv(calls, start, s) && c in calls && s.phases[c].InUpdater?
    requires calls[c].allows(s.phases[c].existing, Some(next)) && s.revision == s.phases[c].before
    requires Write(s.rows, calls[c].path, next, false).Ok?
    ensures var commit := ByCall(c, calls[c].path, s.phases[c].existing, next);
            && ExactCommit(calls, s.rows, commit)
            && Apply(s.rows, commit) == Write(s.rows, calls[c].path, next, false).value
  {
    assert PhaseInv(calls, start, s, c);
  }

  lemma {:induction false} AttemptStore(calls: Calls, s: State, commit: Commit, r: Result<Rows, TreeError>)
    requires WellFormed(s.rows) && commit.ByCall? && ExactCommit(calls, s.rows, commit)
    requires r.Ok? && r.value == Apply(s.rows, commit)
    ensures MadeCommit(calls, s, Attempted(s, commit, r), commit)
  {
  }

  lemma {:induction false} AnswerAttempts(calls: Calls, s: State, c: CallId, next: Json)
    requires WellFormed(s.rows) && s.phases.Keys == calls.Keys && c in calls && s.phases[c].InUpdater?
    requires calls[c].allows(s.phases[c].existing, Some(next)) && s.revision == s.phases[c].before
    ensures After(calls, s, UpdaterReturns(c, Some(next)))
         == Attempted(s, ByCall(c, calls[c].path, s.phases[c].existing, next),
                      Write(s.rows, calls[c].path, next, false))
  {
  }

  /** An answer that does not commit leaves the store alone. */
  lemma {:induction false} OtherAnswers(calls: Calls, s: State, c: CallId, answer: Option<Json>)
    requires WellFormed(s.rows) && s.phases.Keys == calls.Keys
    requires || c !in calls || !s.phases[c].InUpdater? || answer.None?
             || !calls[c].allows(s.phases[c].existing, answer) || s.revision != s.phases[c].before
             || Write(s.rows, calls[c].path, answer.value, false).Err?
    ensures SameStore(s, After(calls, s, UpdaterReturns(c, answer)))
  {
  }

  lemma {:induction false} AnswerCommits(calls: Calls, start: State, s: State, c: CallId, answer: Option<Json>)
    returns (commit: Commit)
    requires Inv(calls, start, s)
    ensures var s' := After(calls, s, UpdaterReturns(c, answer));
            SameStore(s, s') || (MadeCommit(calls, s, s', commit) && commit.ByCall? && commit.call == c)
  {
    commit := Direct([], Null, false);
    if c in calls && s.phases[c].InUpdater? && answer.Some? {
      if calls[c].allows(s.phases[c].existing, answer) && s.revision == s.phases[c].before {
        if Write(s.rows, calls[c].path, answer.value, false).Ok? {
          commit := ByCall(c, calls[c].path, s.phases[c].existing, answer.value);
          AnswerExact(calls, start, s, c, answer.value);
          AttemptStore(calls, s, commit, Write(s.rows, calls[c].path, answer.value, false));
          AnswerAttempts(calls, s, c, answer.value);
          return;
        }
      }
    }
    OtherAnswers(calls, s, c, answer);
  }

  lemma {:induction false} DirectStore(calls: Calls, s: State, path: Path, value: Json, merge: bool)
    requires WellFormed(s.rows) && s.phases.Keys == calls.Keys
    ensures var s' := After(calls, s, WriteDirectly(path, value, merge));
            SameStore(s, s') || MadeCommit(calls, s, s', Direct(path, value, merge))
  {
  }

  /** A step leaves the store alone or makes one commit. */
  lemma {:induction false} StepStore(calls: Calls, start: State, s: State, step: Step) returns (commit: Commit)
    requires Inv(calls, start, s)
    ensures var s' := After(calls, s, step);
            SameStore(s, s') || MadeCommit(calls, s, s', commit)
    ensures After(calls, s, step).log != s.log && commit.ByCall? ==>
              step.UpdaterReturns? && step.call == commit.call
  {
    match step
    case WriteDirectly(path, value, merge) =>
      commit := Direct(path, value, merge);
      DirectStore(calls, s, path, value, merge);
    case UpdaterReturns(c, answer) => commit := AnswerCommits(calls, start, s, c, answer);
    case _ => commit := Direct([], Null, false);
  }

  lemma {:induction false} AttemptedPhase(calls: Calls, start: State, s: State, commit: Commit,
                                          r: Result<Rows, TreeError>)
    requires Inv(calls, start, s) && commit.ByCall? && commit.call in calls && !s.phases[commit.call].Committed?
    requires r.Ok? ==> WellFormed(r.value)
    ensures PhaseInv(calls, start, Attempted(s, commit, r), commit.call)
  {
    assert PhaseInv(calls, start, s, commit.call);
    var s' := Attempted(s, commit, r);
    if r.Ok? {
      assert s'.log[..|s'.log| - 1] == s.log;
    }
  }

  /** The call an answer moves: it ends, starts again, or commits on the state it has read. */
  lemma {:induction false} AnsweredPhase(calls: Calls, start: State, s: State, c: CallId, answer: Option<Json>)
    requires Inv(calls, start, s) && c in calls && PhaseInv(calls, start, s, c) && s.phases[c].InUpdater?
    requires var s' := After(calls, s, UpdaterReturns(c, answer)); WellFormed(s'.rows) && c in s'.phases
    ensures PhaseInv(calls, start, After(calls, s, UpdaterReturns(c, answer)), c)
  {
    var p := s.phases[c];
    if calls[c].allows(p.existing, answer) && answer.Some? && s.revision == p.before {
      var r := Write(s.rows, calls[c].path, answer.value, false);
      WriteKeepsWellFormed(s.rows, calls[c].path, answer.value, false);
      AttemptedPhase(calls, start, s, ByCall(c, calls[c].path, p.existing, answer.value), r);
    }
  }

  lemma {:induction false} ReadingPhase(calls: Calls, start: State, s: State, step: Step, c: CallId)
    requires Inv(calls, start, s) && c in calls && PhaseInv(calls, start, s, c)
    requires (step.Begin? || step.ReadRevision? || step.ReadValue? || step.UpdaterThrows?) && step.call == c
    requires WellFormed(After(calls, s, step).rows) && c in After(calls, s, step).phases
    ensures PhaseInv(calls, start, After(calls, s, step), c)
  {
  }

  lemma {:induction false} StaysPut(calls: Calls, s: State, step: Step, c: CallId)
    requires WellFormed(s.rows) && s.phases.Keys == calls.Keys && c in calls
    requires step.WriteDirectly? || step.call != c || (step.UpdaterReturns? && !s.phases[c].InUpdater?)
    ensures c in After(calls, s, step).phases && After(calls, s, step).phases[c] == s.phases[c]
  {
  }

  /** The call a step moves. */
  lemma {:induction false} MovedPhase(calls: Calls, start: State, s: State, step: Step, c: CallId)
    requires Inv(calls, start, s) && c in calls && WellFormed(After(calls, s, step).rows)
    requires c in After(calls, s, step).phases && After(calls, s, step).phases[c] != s.phases[c]
    ensures PhaseInv(calls, start, After(calls, s, step), c)
  {
    assert PhaseInv(calls, start, s, c);
    if step.WriteDirectly? || step.call != c || (step.UpdaterReturns? && !s.phases[c].InUpdater?) {
      StaysPut(calls, s, step, c);
      assert false;
    } else if step.UpdaterReturns? {
      AnsweredPhase(calls, start, s, c, step.answer);
    } else {
      ReadingPhase(calls, start, s, step, c);
    }
  }

  lemma {:induction false} StepKeepsPhases(calls: Calls, start: State, s: State, step: Step, s': State, c: CallId)
    requires Inv(calls, start, s) && c in calls && s' == After(calls, s, step) && WellFormed(s'.rows) && c in s'.phases
    requires SameStore(s, s') || (s'.revision == s.revision + 1 && |s'.log| == |s.log| + 1)
    requires s'.phases[c] == s.phases[c] ==> CommitsOf(s'.log, c) == CommitsOf(s.log, c)
    ensures PhaseInv(calls, start, s', c)
  {
    assert PhaseInv(calls, start, s, c);
    if s'.phases[c] == s.phases[c] {
      IdlePhase(calls, start, s, s', c);
    } else {
      MovedPhase(calls, start, s, step, c);
    }
  }

  lemma {:induction false} Assemble(calls: Calls, start: State, s: State, s': State, commit: Commit)
    requires Inv(calls, start, s) && WellFormed(s'.rows) && s'.phases.Keys == calls.Keys
    requires SameStore(s, s') || MadeCommit(calls, s, s', commit)
    requires forall c | c in calls :: PhaseInv(calls, start, s', c)
    ensures Inv(calls, start, s')
  {
    if !SameStore(s, s') {
      Appended(calls, start, s, commit);
    }
  }

  lemma {:induction false} StepKeepsInv(calls: Calls, start: State, s: State, step: Step)
    requires Inv(calls, start, s)
    ensures Inv(calls, start, After(calls, s, step))
  {
    AfterKeepsShape(calls, s, step);
    var commit := StepStore(calls, start, s, step);
    var s' := After(calls, s, step);
    forall c | c in calls
      ensures PhaseInv(calls, start, s', c)
    {
      if !SameStore(s, s') {
        Appended(calls, start, s, commit);
      }
      StepKeepsPhases(calls, start, s, step, s', c);
    }
    Assemble(calls, start, s, s', commit);
  }

  lemma {:induction false} RunKeepsInv(calls: Calls, start: State, steps: seq<Step>)
    requires Initial(calls, start)
    ensures Inv(calls, start, Execute(calls, start, steps))
    decreases |steps|
  {
    if steps != [] {
      RunKeepsInv(calls, start, steps[..|steps| - 1]);
      StepKeepsInv(calls, start, Execute(calls, start, steps[..|steps| - 1]), steps[|steps| - 1]);
    }
  }

  /** Serialisability: under any interleaving the table is the sequential application of the commits in
    * commit order, each committed updater saw exactly the state its own commit replaced, each call
    * commits at most once, and every commit raises the revision by one. */
  lemma {:induction false} TransactionsAreSerialisable(calls: Calls, start: State, steps: seq<Step>)
    requires Initial(calls, start)
    ensures var s := Execute(calls, start, steps);
            && s.rows == Replay(start.rows, s.log)
            && s.revision == start.revision + |s.log|
            && ExactLog(calls, start.rows, s.log)
            && forall c | c in calls :: CommitsOf(s.log, c) == if s.phases[c].Committed? then 1 else 0
  {
    RunKeepsInv(calls, start, steps);
    var s := Execute(calls, start, steps);
    forall c | c in calls
      ensures CommitsOf(s.log, c) == if s.phases[c].Committed? then 1 else 0
    {
      assert PhaseInv(calls, start, s, c);
    }
  }

  /** A call that ends in contention wrote nothing, and at least `maxRetries` commits of others
    * happened since it began: with fewer it commits, aborts or fails by its own updater or value. */
  lemma {:induction false} ContentionNeedsForeignCommits(calls: Calls, start: State, steps: seq<Step>, c: CallId)
    requires Initial(calls, start) && c in calls
    requires Execute(calls, start, steps).phases[c].Contended?
    ensures var s := Execute(calls, start, steps);
            && CommitsOf(s.log, c) == 0
            && |s.log| - s.phases[c].started >= calls[c].maxRetries
  {
    RunKeepsInv(calls, start, steps);
    assert PhaseInv(calls, start, Execute(calls, start, steps), c);
  }

  // ---------- what becomes of a call ----------

  lemma {:induction false} OneMore(calls: Calls, start: State, steps: seq<Step>, step: Step)
    requires WellFormed(start.rows) && start.phases.Keys == calls.Keys
    ensures Execute(calls, start, steps + [step]) == After(calls, Execute(calls, start, steps), step)
  {
    assert (steps + [step])[..|steps|] == steps;
  }

  /** How many commits the store has made since the call last read the revision. */
  function Overtaken(s: State, c: CallId): int
    requires c in s.phases && s.phases[c].InUpdater?
  {
    s.revision - s.phases[c].before
  }

  /** A direct write that is accepted takes effect at once. */
  lemma {:induction false} DirectWriteLands(calls: Calls, start: State, steps: seq<Step>, path: Path, value: Json,
                                            merge: bool)
    requires Initial(calls, start)
    ensures var s := Execute(calls, start, steps);
            var s' := Execute(calls, start, steps + [WriteDirectly(path, value, merge)]);
            if Write(s.rows, path, value, merge).Ok? then
              && s'.rows == Write(s.rows, path, value, merge).value && s'.revision == s.revision + 1
              && s'.phases == s.phases
            else s' == s
  {
    OneMore(calls, start, steps, WriteDirectly(path, value, merge));
  }

  /** In every reachable state the updater's answer decides: an abort ends the call, an answer that was
    * overtaken by a commit costs one attempt, and any other one is written, or fails, exactly as a direct
    * write of it would; nothing but a write changes the store. */
  lemma {:induction false} AnswerDecides(calls: Calls, start: State, steps: seq<Step>, c: CallId, answer: Option<Json>)
    requires Initial(calls, start) && c in calls && Execute(calls, start, steps).phases[c].InUpdater?
    requires calls[c].allows(Execute(calls, start, steps).phases[c].existing, answer)
    ensures var s, s' := Execute(calls, start, steps), Execute(calls, start, steps + [UpdaterReturns(c, answer)]);
            var phase := s'.phases[c];
            && s.phases[c].attempt < calls[c].maxRetries && Overtaken(s, c) >= 0
            && (phase == Aborted <==> answer == None)
            && (phase == Trying(s.phases[c].attempt + 1, s.phases[c].started) <==> answer.Some? && Overtaken(s, c) > 0)
            && (answer.Some? && Overtaken(s, c) == 0 ==>
                  var direct := Execute(calls, start, steps + [WriteDirectly(calls[c].path, answer.value, false)]);
                  && s'.rows == direct.rows && s'.revision == direct.revision
                  && (phase == Committed(answer.value) <==> direct.revision == s.revision + 1)
                  && (phase == Failed <==> direct.revision == s.revision))
            && (!phase.Committed? ==> SameStore(s, s'))
  {
    RunKeepsInv(calls, start, steps);
    var s := Execute(calls, start, steps);
    assert PhaseInv(calls, start, s, c);
    OneMore(calls, start, steps, UpdaterReturns(c, answer));
    if answer.Some? && s.revision == s.phases[c].before {
      AnswerAttempts(calls, s, c, answer.value);
      DirectWriteLands(calls, start, steps, calls[c].path, answer.value, false);
    }
  }

  /** An updater that throws ends its call without a trace in the store. */
  lemma {:induction false} ThrowEnds(calls: Calls, start: State, steps: seq<Step>, c: CallId)
    requires Initial(calls, start) && c in calls && Execute(calls, start, steps).phases[c].InUpdater?
    ensures var s, s' := Execute(calls, start, steps), Execute(calls, start, steps + [UpdaterThrows(c)]);
            s'.phases == s.phases[c := Failed] && SameStore(s, s')
  {
    OneMore(calls, start, steps, UpdaterThrows(c));
  }

  function CallAlone(c: CallId, next: Json): seq<Step> {
    [] + [Begin(c)] + [ReadRevision(c)] + [ReadValue(c)] + [UpdaterReturns(c, Some(next))]
  }

  /** A call that nobody overtakes commits at its first attempt what its updater makes of the stored
    * value. */
  lemma {:induction false} CallAloneCommits(calls: Calls, start: State, c: CallId, next: Json)
    requires Initial(calls, start) && c in calls && calls[c].maxRetries > 0
    requires calls[c].allows(Get(Tree(start.rows), calls[c].path), Some(next))
    requires Write(start.rows, calls[c].path, next, false).Ok?
    ensures var s := Execute(calls, start, CallAlone(c, next));
            && s.phases == start.phases[c := Committed(next)]
            && s.rows == Write(start.rows, calls[c].path, next, false).value && s.revision == start.revision + 1
  {
    var read := [] + [Begin(c)] + [ReadRevision(c)] + [ReadValue(c)];
    ReadAlone(calls, start, c);
    OneMore(calls, start, read, UpdaterReturns(c, Some(next)));
    AnswerAttempts(calls, Execute(calls, start, read), c, next);
  }

  lemma {:induction false} ReadAlone(calls: Calls, start: State, c: CallId)
    requires Initial(calls, start) && c in calls && calls[c].maxRetries > 0
    ensures var existing := Get(Tree(start.rows), calls[c].path);
            Execute(calls, start, [] + [Begin(c)] + [ReadRevision(c)] + [ReadValue(c)])
            == start.(phases := start.phases[c := InUpdater(0, 0, start.revision, existing)])
  {
    OneMore(calls, start, [], Begin(c));
    OneMore(calls, start, [] + [Begin(c)], ReadRevision(c));
    OneMore(calls, start, [] + [Begin(c)] + [ReadRevision(c)], ReadValue(c));
  }

  // ---------- increments ----------

  /** Whatever its updater may answer at `path` is one more than what it read; a call elsewhere lies
    * neither above nor below. */
  ghost predicate Increments(call: Call, path: Path, measure: Json -> int) {
    if call.path == path then forall x, y | call.allows(x, Some(y)) :: measure(y) == measure(x) + 1
    else !Comparable(call.path, path)
  }

  ghost predicate CallsIncrement(calls: Calls, path: Path, measure: Json -> int) {
    forall c | c in calls :: Increments(calls[c], path, measure)
  }

  predicate WritesElsewhere(steps: seq<Step>, path: Path) {
    forall i | 0 <= i < |steps| && steps[i].WriteDirectly? :: !Comparable(steps[i].path, path)
  }

  predicate DirectElsewhere(log: seq<Commit>, path: Path) {
    forall i | 0 <= i < |log| && log[i].Direct? :: !Comparable(log[i].path, path)
  }

  lemma {:induction false} StepLogs(calls: Calls, s: State, step: Step)
    requires WellFormed(s.rows) && s.phases.Keys == calls.Keys
    ensures var log' := After(calls, s, step).log;
            || log' == s.log
            || (|log'| == |s.log| + 1 && log' == s.log + [log'[|s.log|]]
                && (log'[|s.log|].Direct? ==> step.WriteDirectly? && step.path == log'[|s.log|].path))
  {
  }

  lemma {:induction false} LogsElsewhere(log: seq<Commit>, log': seq<Commit>, path: Path)
    requires DirectElsewhere(log, path) && |log'| == |log| + 1 && log' == log + [log'[|log|]]
    requires log'[|log|].Direct? ==> !Comparable(log'[|log|].path, path)
    ensures DirectElsewhere(log', path)
  {
  }

  lemma {:induction false} StepElsewhere(calls: Calls, s: State, step: Step, path: Path)
    requires WellFormed(s.rows) && s.phases.Keys == calls.Keys && DirectElsewhere(s.log, path)
    requires step.WriteDirectly? ==> !Comparable(step.path, path)
    ensures DirectElsewhere(After(calls, s, step).log, path)
  {
    StepLogs(calls, s, step);
    if After(calls, s, step).log != s.log {
      LogsElsewhere(s.log, After(calls, s, step).log, path);
    }
  }

  /** The direct commits of a run are its direct writes. */
  lemma {:induction false} RunWritesElsewhere(calls: Calls, start: State, steps: seq<Step>, path: Path)
    requires Initial(calls, start) && WritesElsewhere(steps, path)
    ensures DirectElsewhere(Execute(calls, start, steps).log, path)
    decreases |steps|
  {
    if steps != [] {
      var n := |steps| - 1;
      RunWritesElsewhere(calls, start, steps[..n], path);
      StepElsewhere(calls, Execute(calls, start, steps[..n]), steps[n], path);
    }
  }

  /** The calls at `path` that have committed. */
  function Committers(calls: Calls, log: seq<Commit>, path: Path): set<CallId> {
    set c | c in calls && calls[c].path == path && CommitsOf(log, c) > 0
  }

  lemma {:induction false} CommitterAdded(calls: Calls, log: seq<Commit>, path: Path)
    requires log != [] && var last := log[|log| - 1];
             last.ByCall? && last.call in calls && calls[last.call].path == path && CommitsOf(log, last.call) <= 1
    ensures var n := |log| - 1;
            && Committers(calls, log, path) == Committers(calls, log[..n], path) + {log[n].call}
            && log[n].call !in Committers(calls, log[..n], path)
  {
    var n := |log| - 1;
    assert CommitsOf(log, log[n].call) == CommitsOf(log[..n], log[n].call) + 1;
  }

  lemma {:induction false} CommittersGrow(calls: Calls, rows: Rows, log: seq<Commit>, path: Path)
    requires WellFormed(rows) && ExactLog(calls, rows, log) && DirectElsewhere(log, path) && log != []
    requires forall c | c in calls :: CommitsOf(log, c) <= 1
    ensures var n := |log| - 1;
            |Committers(calls, log, path)|
            == |Committers(calls, log[..n], path)| + (if log[n].path == path then 1 else 0)
  {
    var n := |log| - 1;
    var before, after := Committers(calls, log[..n], path), Committers(calls, log, path);
    if log[n].path == path {
      CommitterAdded(calls, log, path);
    } else {
      assert after == before;
    }
  }

  ghost function DocumentAfter(rows: Rows, log: seq<Commit>, path: Path): Json
    requires WellFormed(rows)
  {
    Get(Tree(Replay(rows, log)), path)
  }

  /** One commit adds one to the measure or leaves the document alone. */
  lemma {:induction false} CommitAdds(calls: Calls, rows: Rows, log: seq<Commit>, path: Path, measure: Json -> int)
    requires WellFormed(rows) && Anchored(path) && log != []
    requires ExactLog(calls, rows, log) && CallsIncrement(calls, path, measure) && DirectElsewhere(log, path)
    ensures var n := |log| - 1;
            measure(DocumentAfter(rows, log, path))
            == measure(DocumentAfter(rows, log[..n], path)) + (if log[n].path == path then 1 else 0)
  {
    var n := |log| - 1;
    var before, w := Replay(rows, log[..n]), WriteOf(log[n]);
    assert ExactCommit(calls, before, log[n]);
    if log[n].ByCall? {
      assert Increments(calls[log[n].call], path, measure);
    }
    if log[n].path == path {
      WriteReadBack(before, path, w.1);
    } else {
      WriteFrame(before, w.0, w.1, w.2, path);
    }
  }

  lemma {:induction false} IncrementsAdd(calls: Calls, rows: Rows, log: seq<Commit>, path: Path, measure: Json -> int)
    requires WellFormed(rows) && Anchored(path)
    requires ExactLog(calls, rows, log) && CallsIncrement(calls, path, measure) && DirectElsewhere(log, path)
    requires forall c | c in calls :: CommitsOf(log, c) <= 1
    ensures measure(DocumentAfter(rows, log, path)) == measure(Get(Tree(rows), path)) + |Committers(calls, log, path)|
    decreases |log|
  {
    if log == [] {
      assert Committers(calls, log, path) == {};
    } else {
      CommitAdds(calls, rows, log, path, measure);
      CommittersGrow(calls, rows, log, path);
      IncrementsAdd(calls, rows, log[..|log| - 1], path, measure);
    }
  }

  /** No lost update: if every updater at an anchored document can only increment it and direct writes
    * stay away, then after any run its measure has grown by exactly the number of calls that committed
    * there, whatever other calls did in between. */
  lemma {:induction false} CountersNeverLoseUpdates(calls: Calls, start: State, steps: seq<Step>, path: Path,
                                                    measure: Json -> int)
    requires Initial(calls, start) && Anchored(path)
    requires CallsIncrement(calls, path, measure) && WritesElsewhere(steps, path)
    ensures var s := Execute(calls, start, steps);
            var committed := set c | c in calls && calls[c].path == path && s.phases[c].Committed?;
            measure(Get(Tree(s.rows), path)) == measure(Get(Tree(start.rows), path)) + |committed|
  {
    TransactionsAreSerialisable(calls, start, steps);
    RunWritesElsewhere(calls, start, steps, path);
    var s := Execute(calls, start, steps);
    IncrementsAdd(calls, start.rows, s.log, path, measure);
    assert Committers(calls, s.log, path) == set c | c in calls && calls[c].path == path && s.phases[c].Committed?;
  }
}
