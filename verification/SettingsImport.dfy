/** The revision-bound settings import
  * (backend/src/services/adminDataService.js, `inspectImport`, `previewImport`, `applyImport`). The
  * signed token is its own content, and the digest the pair it is taken of. */
module SettingsImport {
  import opened Wrappers
  import opened JsonTree
  import opened DocumentTable
  import opened SqliteStore

  const SETTINGS: Key := "local_settings"
  const AUDIT_LOGS: Key := "admin_audit_logs"
  const MAX_RECORDS := 100
  const MAX_KEY := 300
  const TOKEN_LIFETIME: nat := 600_000

  datatype Record = Record(key: Key, expectedRevision: int, document: Json)
  type Bundle = seq<Record>

  datatype Database = Database(rows: Rows, revision: nat)

  datatype Digest = Digest(bundle: Bundle, baseRevision: nat)
  datatype Token = Token(actor: string, digest: Digest, baseRevision: nat, expiresAt: nat)

  datatype ImportError = InvalidImport | ConfirmationRequired | InvalidPreview | StaleImport | StaleRecord

  datatype Preview = Preview(conflicts: seq<Key>, token: Token) {
    predicate CanApply() {
      conflicts == []
    }
  }

  function SettingPath(key: Key): Path {
    [SETTINGS, key]
  }

  function AuditPath(id: Key): Path {
    [AUDIT_LOGS, id]
  }

  function RevisionOf(rows: Rows, path: Path): nat {
    if path in rows then rows[path].revision else 0
  }

  /** The field limits and the search for secrets in a document are the parameter `editable`. */
  predicate Inspected(editable: Json -> bool, bundle: Bundle) {
    && 1 <= |bundle| <= MAX_RECORDS
    && (forall i | 0 <= i < |bundle| ::
          && 0 < |bundle[i].key| <= MAX_KEY && SafeKey(bundle[i].key) && '/' !in bundle[i].key
          && JsonTree.Valid(bundle[i].document) && bundle[i].document.Obj? && editable(bundle[i].document)
          && bundle[i].expectedRevision >= 0)
    && (forall i, j | 0 <= i < j < |bundle| :: bundle[i].key != bundle[j].key)
  }

  /** The bundles that pass: one to a hundred records under different clean keys, each with an editable
    * object that may be stored and the revision it expects. */
  lemma {:induction false} InspectsExactly(editable: Json -> bool, bundle: Bundle)
    ensures Inspected(editable, bundle) <==>
              && 1 <= |bundle| <= 100
              && (forall i | 0 <= i < |bundle| ::
                    && 1 <= |bundle[i].key| <= 300 && Clean(bundle[i].key) && '/' !in bundle[i].key
                    && bundle[i].document.Obj? && WithinLimits(bundle[i].document, 40) && editable(bundle[i].document)
                    && bundle[i].expectedRevision >= 0)
              && (forall i, j | 0 <= i < |bundle| && 0 <= j < |bundle| && i != j :: bundle[i].key != bundle[j].key)
  {
    forall i | 0 <= i < |bundle|
      ensures SafeKey(bundle[i].key) <==> Clean(bundle[i].key)
      ensures JsonTree.Valid(bundle[i].document) <==> WithinLimits(bundle[i].document, 40)
    {
      SafeKeyExactly(bundle[i].key);
      ValidExactly(bundle[i].document, 0);
    }
  }

  // ---------- preview ----------

  function Conflicts(rows: Rows, bundle: Bundle): seq<Key> {
    if bundle == [] then []
    else
      (if bundle[0].expectedRevision == RevisionOf(rows, SettingPath(bundle[0].key)) then [] else [bundle[0].key])
      + Conflicts(rows, bundle[1..])
  }

  function PreviewOf(db: Database, bundle: Bundle, actor: string, now: nat): Preview {
    Preview(Conflicts(db.rows, bundle),
            Token(actor, Digest(bundle, db.revision), db.revision, now + TOKEN_LIFETIME))
  }

  predicate UpToDate(rows: Rows, bundle: Bundle) {
    forall i | 0 <= i < |bundle| :: bundle[i].expectedRevision == RevisionOf(rows, SettingPath(bundle[i].key))
  }

  lemma {:induction false} NoConflicts(rows: Rows, bundle: Bundle)
    ensures Conflicts(rows, bundle) == [] <==> UpToDate(rows, bundle)
  {
    if bundle != [] {
      NoConflicts(rows, bundle[1..]);
      assert forall i | 0 < i < |bundle| :: bundle[i] == bundle[1..][i - 1];
    }
  }

  // ---------- apply ----------

  /** The checks before the transaction: confirmation, signature and expiry, owner, digest, revision. */
  function Admit(editable: Json -> bool, db: Database, issued: set<Token>, now: nat,
                 bundle: Bundle, confirmation: string, token: Token, actor: string): Option<ImportError>
  {
    if !Inspected(editable, bundle) then Some(InvalidImport)
    else if confirmation != "APPLY SETTINGS IMPORT" then Some(ConfirmationRequired)
    else if token !in issued || now >= token.expiresAt then Some(InvalidPreview)
    else if token.actor != actor then Some(InvalidPreview)
    else if Digest(bundle, token.baseRevision) != token.digest then Some(InvalidPreview)
    else if db.revision != token.baseRevision then Some(StaleImport)
    else None
  }

  function ImportRows(rows: Rows, bundle: Bundle): Rows {
    if bundle == [] then rows
    else
      var last := bundle[|bundle| - 1];
      Upsert(ImportRows(rows, bundle[..|bundle| - 1]), SettingPath(last.key), last.document)
  }

  /** The transaction: nothing, or all records and one audit entry. */
  function Commit(db: Database, bundle: Bundle, baseRevision: nat, auditId: Key,
                  entry: Json): Result<Database, ImportError>
  {
    if db.revision != baseRevision then Err(StaleImport)
    else if !UpToDate(db.rows, bundle) then Err(StaleRecord)
    else Ok(Database(Upsert(ImportRows(db.rows, bundle), AuditPath(auditId), entry), db.revision + |bundle| + 1))
  }

  lemma {:induction false} AnchoredWrite(rows: Rows, path: Path, document: Json)
    requires |path| == FullDepth(path) && document.Obj?
    ensures WriteAtAnchor(rows, path, document, false) == Ok(Upsert(rows, path, document))
  {
    assert path[..|path|] == path && path[|path|..] == [];
  }

  predicate Word(key: Key) {
    forall i | 0 <= i < |key| :: 'a' <= key[i] <= 'z' || key[i] == '_'
  }

  lemma {:induction false} WordIsSafe(key: Key)
    requires Word(key) && |key| > 11
    ensures SafeKey(key)
  {
  }

  lemma {:induction false} SafePair(collection: Key, key: Key)
    requires collection in {SETTINGS, AUDIT_LOGS} && key != "" && SafeKey(key)
    ensures SafePath([collection, key])
  {
    assert Word(SETTINGS) && Word(AUDIT_LOGS);
    WordIsSafe(collection);
  }

  lemma {:induction false} SettingWrite(rows: Rows, collection: Key, key: Key, document: Json)
    requires WellFormed(rows) && JsonTree.Valid(document) && document.Obj?
    requires collection in {SETTINGS, AUDIT_LOGS} && key != "" && SafeKey(key)
    ensures var path := [collection, key];
            && DocumentTable.Write(rows, path, document, false) == Ok(Upsert(rows, path, document))
            && WellFormed(Upsert(rows, path, document))
  {
    SafePair(collection, key);
    AnchoredWrite(rows, [collection, key], document);
  }

  lemma {:induction false} RowsBefore(rows: Rows, bundle: Bundle, path: Path)
    requires forall i | 0 <= i < |bundle| :: SettingPath(bundle[i].key) != path && !bundle[i].document.Null?
    ensures path in ImportRows(rows, bundle) <==> path in rows
    ensures path in rows ==> ImportRows(rows, bundle)[path] == rows[path]
    decreases |bundle|
  {
    if bundle != [] {
      RowsBefore(rows, bundle[..|bundle| - 1], path);
    }
  }

  lemma {:induction false} RowWritten(rows: Rows, bundle: Bundle, i: nat)
    requires i < |bundle| && forall j | 0 <= j < |bundle| :: !bundle[j].document.Null?
    requires forall j, k | 0 <= j < k < |bundle| :: bundle[j].key != bundle[k].key
    ensures var path := SettingPath(bundle[i].key);
            path in ImportRows(rows, bundle)
            && ImportRows(rows, bundle)[path] == Row(bundle[i].document, RevisionOf(rows, path) + 1)
    decreases |bundle|
  {
    var n := |bundle| - 1;
    var path := SettingPath(bundle[i].key);
    if i < n {
      RowWritten(rows, bundle[..n], i);
      assert SettingPath(bundle[n].key)[1] != path[1];
    } else {
      forall j | 0 <= j < n
        ensures SettingPath(bundle[..n][j].key) != path
      {
        assert SettingPath(bundle[j].key)[1] != path[1];
      }
      RowsBefore(rows, bundle[..n], path);
    }
  }

  /** A committed import has written every record, one revision up, and the audit entry, and nothing
    * else; the store's revision has gone up by one for each. */
  lemma {:induction false} ImportWritesAll(editable: Json -> bool, db: Database, bundle: Bundle, baseRevision: nat,
                                           auditId: Key, entry: Json)
    requires Inspected(editable, bundle) && !entry.Null?
    requires Commit(db, bundle, baseRevision, auditId, entry).Ok?
    ensures var db' := Commit(db, bundle, baseRevision, auditId, entry).value;
            && (forall i | 0 <= i < |bundle| ::
                  var path := SettingPath(bundle[i].key);
                  path in db'.rows && db'.rows[path] == Row(bundle[i].document, bundle[i].expectedRevision + 1))
            && Lookup(db'.rows, AuditPath(auditId)) == entry
            && (forall path | path != AuditPath(auditId)
                              && (forall i | 0 <= i < |bundle| :: path != SettingPath(bundle[i].key)) ::
                  (path in db'.rows <==> path in db.rows) && (path in db.rows ==> db'.rows[path] == db.rows[path]))
            && db'.revision == db.revision + |bundle| + 1
  {
    var db' := Commit(db, bundle, baseRevision, auditId, entry).value;
    forall i | 0 <= i < |bundle|
      ensures var path := SettingPath(bundle[i].key);
              path in db'.rows && db'.rows[path] == Row(bundle[i].document, bundle[i].expectedRevision + 1)
    {
      RowWritten(db.rows, bundle, i);
      assert SettingPath(bundle[i].key)[0] != AuditPath(auditId)[0];
    }
    forall path | path != AuditPath(auditId) && forall i | 0 <= i < |bundle| :: path != SettingPath(bundle[i].key)
      ensures (path in db'.rows <==> path in db.rows) && (path in db.rows ==> db'.rows[path] == db.rows[path])
    {
      RowsBefore(db.rows, bundle, path);
    }
  }

  // ---------- runs ----------

  /** An application as it was presented, and when. */
  datatype Request = Request(bundle: Bundle, confirmation: string, token: Token, actor: string, at: nat)

  /** One committed application. */
  datatype Applied = Applied(request: Request, before: Database, after: Database, auditId: Key, entry: Json)

  /** The preview that issued a token: what it was made from, for whom and when. */
  datatype Issue = Issue(db: Database, bundle: Bundle, actor: string, at: nat)

  /** `previews` maps each issued token to its preview, `pending` are the admitted applications between
    * their checks and their transaction, `applied` is the history. */
  datatype State = State(db: Database, now: nat, previews: map<Token, Issue>, pending: map<nat, Request>,
                         applied: seq<Applied>)

  datatype Step =
    | Advance(milliseconds: nat)
    | PreviewImport(bundle: Bundle, actor: string)
    | AdmitImport(ticket: nat, bundle: Bundle, confirmation: string, token: Token, actor: string)
    | CommitImport(ticket: nat, auditId: Key, entry: Json)
    | OtherWrites(rows: Rows, commits: nat)

  function After(editable: Json -> bool, s: State, step: Step): State {
    match step
    case Advance(milliseconds) => s.(now := s.now + milliseconds)
    case PreviewImport(bundle, actor) =>
      if !Inspected(editable, bundle) then s
      else s.(previews := s.previews[PreviewOf(s.db, bundle, actor, s.now).token := Issue(s.db, bundle, actor, s.now)])
    case AdmitImport(ticket, bundle, confirmation, token, actor) =>
      if Admit(editable, s.db, s.previews.Keys, s.now, bundle, confirmation, token, actor).Some? then s
      else s.(pending := s.pending[ticket := Request(bundle, confirmation, token, actor, s.now)])
    case CommitImport(ticket, auditId, entry) =>
      if ticket !in s.pending || entry.Null? then s
      else
        var p := s.pending[ticket];
        var r := Commit(s.db, p.bundle, p.token.baseRevision, auditId, entry);
        var done := s.(pending := s.pending - {ticket});
        if r.Err? then done
        else done.(db := r.value, applied := s.applied + [Applied(p, s.db, r.value, auditId, entry)])
    case OtherWrites(rows, commits) =>
      // every committed write raises the revision by one
      if commits == 0 then s else s.(db := Database(rows, s.db.revision + commits))
  }

  predicate Initial(s: State) {
    s.previews == map[] && s.pending == map[] && s.applied == []
  }

  function Execute(editable: Json -> bool, start: State, steps: seq<Step>): State
    decreases |steps|
  {
    if steps == [] then start
    else After(editable, Execute(editable, start, steps[..|steps| - 1]), steps[|steps| - 1])
  }

  /** The token speaks of the preview that issued it, and the store still holds what that preview saw if
    * its revision has not moved. */
  predicate TokenSound(s: State, token: Token)
    requires token in s.previews
  {
    var issue := s.previews[token];
    && issue.db.revision == token.baseRevision <= s.db.revision
    && (s.db.revision == token.baseRevision ==> s.db == issue.db)
    && token.digest == Digest(issue.bundle, issue.db.revision)
    && token.actor == issue.actor && token.expiresAt == issue.at + 600_000 && issue.at <= s.now
  }

  /** What every admitted application has shown: the bundle and the admin of its preview, presented within
    * ten minutes of it with the confirmation text. */
  predicate RequestSound(editable: Json -> bool, s: State, r: Request) {
    && Inspected(editable, r.bundle) && 1 <= |r.bundle| <= 100
    && r.token in s.previews
    && var issue := s.previews[r.token];
       && r.bundle == issue.bundle && r.actor == issue.actor
       && issue.at <= r.at < issue.at + 600_000
       && r.confirmation == "APPLY SETTINGS IMPORT"
  }

  ghost predicate ApplicationSound(editable: Json -> bool, s: State, a: Applied) {
    && RequestSound(editable, s, a.request)
    && a.before == s.previews[a.request.token].db
    && UpToDate(a.before.rows, a.request.bundle)
    && !a.entry.Null?
    && Commit(a.before, a.request.bundle, a.request.token.baseRevision, a.auditId, a.entry) == Ok(a.after)
    && a.after.revision <= s.db.revision
  }

  ghost predicate Inv(editable: Json -> bool, s: State) {
    && (forall token | token in s.previews :: TokenSound(s, token))
    && (forall ticket | ticket in s.pending :: RequestSound(editable, s, s.pending[ticket]))
    && (forall i | 0 <= i < |s.applied| :: ApplicationSound(editable, s, s.applied[i]))
    && InOrder(s.applied)
  }

  ghost predicate InOrder(applied: seq<Applied>) {
    forall i, j | 0 <= i < j < |applied| :: applied[i].after.revision <= applied[j].before.revision
  }

  lemma {:induction false} AppendedInOrder(applied: seq<Applied>, a: Applied)
    requires InOrder(applied) && forall i | 0 <= i < |applied| :: applied[i].after.revision <= a.before.revision
    ensures InOrder(applied + [a])
  {
  }

  lemma {:induction false} CommitRaisesRevision(db: Database, bundle: Bundle, baseRevision: nat, auditId: Key,
                                                entry: Json)
    requires Commit(db, bundle, baseRevision, auditId, entry).Ok?
    ensures baseRevision == db.revision < Commit(db, bundle, baseRevision, auditId, entry).value.revision
    ensures UpToDate(db.rows, bundle)
  {
  }

  lemma {:induction false} NewApplicationSound(editable: Json -> bool, s: State, p: Request, auditId: Key,
                                               entry: Json, s': State)
    requires RequestSound(editable, s, p) && !entry.Null? && TokenSound(s, p.token)
    requires Commit(s.db, p.bundle, p.token.baseRevision, auditId, entry) == Ok(s'.db) && s'.previews == s.previews
    ensures ApplicationSound(editable, s', Applied(p, s.db, s'.db, auditId, entry))
  {
    CommitRaisesRevision(s.db, p.bundle, p.token.baseRevision, auditId, entry);
  }

  /** What was issued and applied stays sound while the revision rises. */
  lemma {:induction false} SoundLater(editable: Json -> bool, s: State, s': State)
    requires forall token | token in s.previews :: TokenSound(s, token)
    requires forall i | 0 <= i < |s.applied| :: ApplicationSound(editable, s, s.applied[i])
    requires s'.previews == s.previews && s.db.revision < s'.db.revision && s'.now == s.now
    ensures forall token | token in s.previews :: TokenSound(s', token)
    ensures forall i | 0 <= i < |s.applied| :: ApplicationSound(editable, s', s.applied[i])
  {
    forall i | 0 <= i < |s.applied|
      ensures ApplicationSound(editable, s', s.applied[i])
    {
      assert ApplicationSound(editable, s, s.applied[i]);
    }
    forall token | token in s.previews
      ensures TokenSound(s', token)
    {
      assert TokenSound(s, token);
    }
  }

  lemma {:induction false} CommittedKeepsInv(editable: Json -> bool, s: State, ticket: nat, auditId: Key, entry: Json)
    requires Inv(editable, s) && ticket in s.pending && !entry.Null?
    requires Commit(s.db, s.pending[ticket].bundle, s.pending[ticket].token.baseRevision, auditId, entry).Ok?
    ensures Inv(editable, After(editable, s, CommitImport(ticket, auditId, entry)))
  {
    var p := s.pending[ticket];
    var s' := After(editable, s, CommitImport(ticket, auditId, entry));
    assert RequestSound(editable, s, p) && TokenSound(s, p.token);
    CommitRaisesRevision(s.db, p.bundle, p.token.baseRevision, auditId, entry);
    NewApplicationSound(editable, s, p, auditId, entry, s');
    SoundLater(editable, s, s');
    assert forall i | 0 <= i < |s.applied| :: ApplicationSound(editable, s, s.applied[i]);
    AppendedInOrder(s.applied, s'.applied[|s.applied|]);
    RequestsLater(editable, s, s'.(pending := s.pending, applied := s.applied));
  }

  lemma {:induction false} CommitKeepsInv(editable: Json -> bool, s: State, ticket: nat, auditId: Key, entry: Json)
    requires Inv(editable, s) && ticket in s.pending && !entry.Null?
    ensures Inv(editable, After(editable, s, CommitImport(ticket, auditId, entry)))
  {
    var p := s.pending[ticket];
    if Commit(s.db, p.bundle, p.token.baseRevision, auditId, entry).Ok? {
      CommittedKeepsInv(editable, s, ticket, auditId, entry);
    } else {
      RequestsLater(editable, s, s.(pending := s.pending - {ticket}));
    }
  }

  /** A preview issued again by the same admin on the same database at the same time is the same one. */
  lemma {:induction false} PreviewKeepsTokens(editable: Json -> bool, s: State, bundle: Bundle, actor: string)
    requires Inv(editable, s)
    ensures var s' := After(editable, s, PreviewImport(bundle, actor));
            && (forall token | token in s.previews :: token in s'.previews && s'.previews[token] == s.previews[token])
            && (forall token | token in s'.previews :: TokenSound(s', token))
  {
    var token := PreviewOf(s.db, bundle, actor, s.now).token;
    var s' := After(editable, s, PreviewImport(bundle, actor));
    if token in s.previews {
      assert TokenSound(s, token);
    }
    forall t | t in s'.previews ensures TokenSound(s', t) {
      assert t in s.previews ==> TokenSound(s, t);
    }
  }

  lemma {:induction false} RequestsLater(editable: Json -> bool, s: State, s': State)
    requires Inv(editable, s)
    requires forall token | token in s.previews :: token in s'.previews && s'.previews[token] == s.previews[token]
    requires s'.db == s.db || s.db.revision < s'.db.revision
    ensures forall ticket | ticket in s.pending :: RequestSound(editable, s', s.pending[ticket])
    ensures forall i | 0 <= i < |s.applied| :: ApplicationSound(editable, s', s.applied[i])
  {
    forall i | 0 <= i < |s.applied|
      ensures ApplicationSound(editable, s', s.applied[i])
    {
      assert ApplicationSound(editable, s, s.applied[i]);
    }
    forall ticket | ticket in s.pending
      ensures RequestSound(editable, s', s.pending[ticket])
    {
      assert RequestSound(editable, s, s.pending[ticket]);
    }
  }

  /** Exactly what the checks before the transaction let through in a reachable state. */
  lemma {:induction false} AdmitsExactly(editable: Json -> bool, s: State, bundle: Bundle, confirmation: string,
                                         token: Token, actor: string)
    requires Inv(editable, s)
    ensures Admit(editable, s.db, s.previews.Keys, s.now, bundle, confirmation, token, actor) == None <==>
              && RequestSound(editable, s, Request(bundle, confirmation, token, actor, s.now))
              && s.db == s.previews[token].db
  {
    if token in s.previews {
      assert TokenSound(s, token);
    }
  }

  lemma {:induction false} OtherStepKeepsTokens(editable: Json -> bool, s: State, step: Step)
    requires Inv(editable, s) && (step.Advance? || step.AdmitImport? || step.OtherWrites?)
    ensures var s' := After(editable, s, step);
            s'.previews == s.previews && forall token | token in s'.previews :: TokenSound(s', token)
  {
    var s' := After(editable, s, step);
    forall token | token in s'.previews ensures TokenSound(s', token) {
      assert TokenSound(s, token);
    }
  }

  lemma {:induction false} StepKeepsInv(editable: Json -> bool, s: State, step: Step)
    requires Inv(editable, s)
    ensures Inv(editable, After(editable, s, step))
  {
    match step
    case CommitImport(ticket, auditId, entry) =>
      if ticket in s.pending && !entry.Null? {
        CommitKeepsInv(editable, s, ticket, auditId, entry);
      }
    case PreviewImport(bundle, actor) =>
      PreviewKeepsTokens(editable, s, bundle, actor);
      RequestsLater(editable, s, After(editable, s, step));
    case AdmitImport(_, bundle, confirmation, token, actor) =>
      AdmitsExactly(editable, s, bundle, confirmation, token, actor);
      OtherStepKeepsTokens(editable, s, step);
      RequestsLater(editable, s, After(editable, s, step));
    case _ =>
      if step.Advance? || step.OtherWrites? {
        OtherStepKeepsTokens(editable, s, step);
        RequestsLater(editable, s, After(editable, s, step));
      }
  }

  lemma {:induction false} RunKeepsInv(editable: Json -> bool, start: State, steps: seq<Step>)
    requires Initial(start)
    ensures Inv(editable, Execute(editable, start, steps))
    decreases |steps|
  {
    if steps != [] {
      RunKeepsInv(editable, start, steps[..|steps| - 1]);
      StepKeepsInv(editable, Execute(editable, start, steps[..|steps| - 1]), steps[|steps| - 1]);
    }
  }

  /** In every run, with other writers in between: each application was presented by the admin who had
    * previewed it, within ten minutes and with the confirmation text, worked on exactly the database and
    * the bundle of that preview without a conflict, and wrote all of it; and no token was ever applied
    * twice. */
  lemma {:induction false} ImportIsBoundToItsPreview(editable: Json -> bool, start: State, steps: seq<Step>)
    requires Initial(start)
    ensures var s := Execute(editable, start, steps);
            && (forall i | 0 <= i < |s.applied| :: ApplicationSound(editable, s, s.applied[i]))
            && (forall i, j | 0 <= i < j < |s.applied| :: s.applied[i].request.token != s.applied[j].request.token)
  {
    RunKeepsInv(editable, start, steps);
    var s := Execute(editable, start, steps);
    forall i, j | 0 <= i < j < |s.applied|
      ensures s.applied[i].request.token != s.applied[j].request.token
    {
      var a, b := s.applied[i], s.applied[j];
      assert ApplicationSound(editable, s, a) && ApplicationSound(editable, s, b);
      assert TokenSound(s, a.request.token) && TokenSound(s, b.request.token);
      CommitRaisesRevision(a.before, a.request.bundle, a.request.token.baseRevision, a.auditId, a.entry);
    }
  }

  /** The converse: in every reachable state an application is admitted exactly when it shows all this and
    * the database is still the previewed one. */
  lemma {:induction false} AdmittedExactly(editable: Json -> bool, start: State, steps: seq<Step>, ticket: nat,
                                           request: Request)
    requires Initial(start)
    requires request.at == Execute(editable, start, steps).now && ticket !in Execute(editable, start, steps).pending
    ensures var s := Execute(editable, start, steps);
            var admit := AdmitImport(ticket, request.bundle, request.confirmation, request.token, request.actor);
            var s' := Execute(editable, start, steps + [admit]);
            && (ticket in s'.pending <==>
                  RequestSound(editable, s, request) && s.db == s.previews[request.token].db)
            && (ticket in s'.pending ==> s'.pending == s.pending[ticket := request])
  {
    var admit := AdmitImport(ticket, request.bundle, request.confirmation, request.token, request.actor);
    assert (steps + [admit])[..|steps|] == steps;
    RunKeepsInv(editable, start, steps);
    var s := Execute(editable, start, steps);
    AdmitsExactly(editable, s, request.bundle, request.confirmation, request.token, request.actor);
  }

  function PromptImport(bundle: Bundle, actor: string, wait: nat, ticket: nat, token: Token, auditId: Key,
                        entry: Json): seq<Step>
  {
    [PreviewImport(bundle, actor), Advance(wait), AdmitImport(ticket, bundle, "APPLY SETTINGS IMPORT", token, actor),
     CommitImport(ticket, auditId, entry)]
  }

  /** From any state: previewing a bundle without conflicts and applying it within ten minutes, with
    * nobody else writing, applies it. */
  lemma {:induction false} PromptImportApplies(editable: Json -> bool, s: State, bundle: Bundle, actor: string,
                                               wait: nat, ticket: nat, auditId: Key, entry: Json)
    requires Inspected(editable, bundle) && UpToDate(s.db.rows, bundle) && wait < 600_000 && !entry.Null?
    ensures var token := PreviewOf(s.db, bundle, actor, s.now).token;
            var s' := Execute(editable, s, PromptImport(bundle, actor, wait, ticket, token, auditId, entry));
            && |s'.applied| == |s.applied| + 1
            && s'.applied[|s.applied|].request == Request(bundle, "APPLY SETTINGS IMPORT", token, actor, s.now + wait)
            && Ok(s'.db) == Commit(s.db, bundle, s.db.revision, auditId, entry)
  {
    var token := PreviewOf(s.db, bundle, actor, s.now).token;
    var steps := PromptImport(bundle, actor, wait, ticket, token, auditId, entry);
    var previewed := After(editable, s, steps[0]);
    var later := After(editable, previewed, steps[1]);
    var admitted := After(editable, later, steps[2]);
    assert Admit(editable, later.db, later.previews.Keys, later.now, bundle, "APPLY SETTINGS IMPORT", token, actor)
           == None;
    assert admitted.pending[ticket] == Request(bundle, "APPLY SETTINGS IMPORT", token, actor, s.now + wait);
    assert steps[..4] == steps && steps[..4][..3] == steps[..3] && steps[..3][..2] == steps[..2];
    assert steps[..2][..1] == steps[..1] && steps[..1][..0] == [];
    assert Execute(editable, s, steps[..1]) == previewed;
    assert Execute(editable, s, steps[..2]) == later;
    assert Execute(editable, s, steps[..3]) == admitted;
  }

  /** From any state: when anything else is written after the preview, the application is refused, and when
    * it is written between the checks and the transaction, nothing is applied. */
  lemma {:induction false} OvertakenImportIsRefused(editable: Json -> bool, s: State, bundle: Bundle, actor: string,
                                                    rows: Rows, commits: nat, ticket: nat, auditId: Key, entry: Json)
    requires commits > 0 && ticket !in s.pending
    ensures var token := PreviewOf(s.db, bundle, actor, s.now).token;
            var other := OtherWrites(rows, commits);
            var admit := AdmitImport(ticket, bundle, "APPLY SETTINGS IMPORT", token, actor);
            var previewed := After(editable, s, PreviewImport(bundle, actor));
            && ticket !in After(editable, After(editable, previewed, other), admit).pending
            && After(editable, After(editable, After(editable, previewed, admit), other),
                     CommitImport(ticket, auditId, entry)).applied == s.applied
  {
  }

  /** The conflicts of a preview are exactly the keys whose record has another revision than expected. */
  lemma {:induction false} ConflictsExactly(rows: Rows, bundle: Bundle, key: Key)
    ensures key in Conflicts(rows, bundle) <==>
              exists i | 0 <= i < |bundle| ::
                bundle[i].key == key
                && bundle[i].expectedRevision !=
                     if [SETTINGS, key] in rows then rows[[SETTINGS, key]].revision else 0
  {
    if bundle != [] {
      ConflictsExactly(rows, bundle[1..], key);
      assert forall i | 0 < i < |bundle| :: bundle[i] == bundle[1..][i - 1];
    }
  }

  /** An admitted application that no write has overtaken commits exactly when its preview showed no
    * conflict. */
  lemma {:induction false} PreviewForetellsCommit(db: Database, bundle: Bundle, actor: string, now: nat,
                                                  auditId: Key, entry: Json)
    ensures Commit(db, bundle, PreviewOf(db, bundle, actor, now).token.baseRevision, auditId, entry).Ok?
            <==> PreviewOf(db, bundle, actor, now).CanApply()
  {
    NoConflicts(db.rows, bundle);
  }

  // ---------- on the store ----------

  ghost function DatabaseOf(store: SqliteStore): Database
    reads store
  {
    Database(store.documents, store.revision)
  }

  method WriteRecord(store: SqliteStore, collection: Key, key: Key, document: Json)
    requires collection in {SETTINGS, AUDIT_LOGS} && key != "" && SafeKey(key)
    requires JsonTree.Valid(document) && document.Obj?
    requires store.Valid() && store.insideAtomic
    modifies store
    ensures store.Valid() && store.insideAtomic
    ensures store.documents == Upsert(old(store.documents), [collection, key], document)
    ensures store.revision == old(store.revision) + 1
  {
    SettingWrite(store.documents, collection, key, document);
    var _ := store.Write([collection, key], document, false);
  }

  /** The loop over the expected revisions. */
  method CheckRevisions(store: SqliteStore, bundle: Bundle) returns (ok: bool)
    ensures ok <==> UpToDate(store.documents, bundle)
  {
    for i := 0 to |bundle|
      invariant UpToDate(store.documents, bundle[..i])
    {
      if bundle[i].expectedRevision != RevisionOf(store.documents, SettingPath(bundle[i].key)) {
        return false;
      }
      assert bundle[..i + 1] == bundle[..i] + [bundle[i]];
    }
    assert bundle[..|bundle|] == bundle;
    return true;
  }

  /** The loop over the records. */
  method WriteRecords(editable: Json -> bool, store: SqliteStore, bundle: Bundle)
    requires Inspected(editable, bundle) && store.Valid() && store.insideAtomic
    modifies store
    ensures store.Valid() && store.insideAtomic
    ensures store.documents == ImportRows(old(store.documents), bundle)
    ensures store.revision == old(store.revision) + |bundle|
  {
    for i := 0 to |bundle|
      invariant store.Valid() && store.insideAtomic
      invariant store.documents == ImportRows(old(store.documents), bundle[..i])
      invariant store.revision == old(store.revision) + i
    {
      assert bundle[..i + 1][..i] == bundle[..i];
      WriteRecord(store, SETTINGS, bundle[i].key, bundle[i].document);
    }
    assert bundle[..|bundle|] == bundle;
  }

  /** The body of `applyImport`'s transaction: the checks, then one write for each record and one for
    * the audit entry. */
  method CommitOnStore(editable: Json -> bool, store: SqliteStore, bundle: Bundle, baseRevision: nat, auditId: Key,
                       entry: Json)
    returns (r: Option<ImportError>)
    requires Inspected(editable, bundle) && auditId != "" && SafeKey(auditId) && JsonTree.Valid(entry) && entry.Obj?
    requires store.Valid() && !store.insideAtomic
    modifies store
    ensures store.Valid() && !store.insideAtomic
    ensures var spec := Commit(old(DatabaseOf(store)), bundle, baseRevision, auditId, entry);
            if spec.Ok? then r == None && DatabaseOf(store) == spec.value
            else r == Some(spec.error) && DatabaseOf(store) == old(DatabaseOf(store))
  {
    if store.revision != baseRevision {
      return Some(StaleImport);
    }
    var upToDate := CheckRevisions(store, bundle);
    if !upToDate {
      return Some(StaleRecord);
    }
    store.insideAtomic := true;
    WriteRecords(editable, store, bundle);
    WriteRecord(store, AUDIT_LOGS, auditId, entry);
    store.insideAtomic := false;
    return None;
  }
}
