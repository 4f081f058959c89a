/** `Job` objects over the SQLite provider: a loaded copy, the snapshot taken when it was loaded, and
  * the three-way field merge done by `save` (backend/src/models/Job.js). Each committed transaction
  * sees exactly the record it replaces, so a save is one atomic step on the stored record. */
module JobSave {
  import opened Wrappers
  import opened JsonTree

  type Field = Key
  type Record = map<Field, Json>
  type JobId = Key

  datatype SaveError = Missing | Conflict | JobIdConflict

  const DELETED: Field := "logicalDeleted"

  /** A field as JavaScript reads it: `None` is undefined. */
  function At(record: Record, field: Field): Option<Json> {
    if field in record then Some(record[field]) else None
  }

  predicate Deleted(record: Record) {
    DELETED in record && Truthy(record[DELETED])
  }

  /** The merge of one field: untouched keeps the stored value, touched writes the desired one if the
    * stored one is still the baseline or already the desired one. */
  function MergeField<T(==)>(current: T, baseline: T, desired: T): Option<T> {
    if desired == baseline then Some(current)
    else if current == baseline || current == desired then Some(desired)
    else None
  }

  function Changed(baseline: Record, desired: Record): set<Field> {
    set field | field in desired && At(baseline, field) != Some(desired[field])
  }

  predicate Conflicting(current: Record, baseline: Record, desired: Record) {
    exists field | field in Changed(baseline, desired) ::
      At(current, field) != At(baseline, field) && At(current, field) != Some(desired[field])
  }

  function MergeRecord(current: Option<Record>, baseline: Record, desired: Record): Result<Record, SaveError> {
    if current.None? || Deleted(current.value) then Err(Missing)
    else if Conflicting(current.value, baseline, desired) then Err(Conflict)
    else Ok(current.value + map field | field in Changed(baseline, desired) :: desired[field])
  }

  /** All records of the `jobs` collection. */
  class JobStore {
    var records: map<JobId, Record>

    constructor ()
      ensures records == map[]
    {
      records := map[];
    }
  }

  class Job {
    const jobId: JobId
    var fields: Record
    var baseline: Record

    /** A job object loaded from (or about to become) a record. Missing fields are filled in by `fill`,
      * and the snapshot is taken after that. */
    constructor (jobId: JobId, data: Record, fill: Record -> Record)
      ensures this.jobId == jobId && fields == baseline == fill(data)
    {
      this.jobId := jobId;
      fields := fill(data);
      baseline := fill(data);
    }

    /** `create` stores the record only if the id is unused, deleted records included. */
    method Create(store: JobStore) returns (r: Result<(), SaveError>)
      modifies this, store
      ensures fields == old(fields)
      ensures if jobId in old(store.records) then
                r == Err(JobIdConflict) && store.records == old(store.records) && baseline == old(baseline)
              else
                r == Ok(()) && store.records == old(store.records)[jobId := fields] && baseline == fields
    {
      if jobId in store.records {
        return Err(JobIdConflict);
      }
      store.records := store.records[jobId := fields];
      baseline := fields;
      return Ok(());
    }

    /** The loop over changed fields inside the transaction. A conflict writes nothing; a commit
      * refreshes the object and its snapshot from the stored result. */
    method Save(store: JobStore) returns (r: Result<(), SaveError>)
      modifies this, store
      ensures var current := if jobId in old(store.records) then Some(old(store.records)[jobId]) else None;
              var spec := MergeRecord(current, old(baseline), old(fields));
              if spec.Ok? then
                && r == Ok(())
                && store.records == old(store.records)[jobId := spec.value]
                && fields == old(fields) + spec.value
                && baseline == fields
              else
                && r == Err(spec.error)
                && store.records == old(store.records) && fields == old(fields) && baseline == old(baseline)
    {
      if jobId !in store.records || Deleted(store.records[jobId]) {
        return Err(Missing);
      }
      var current := store.records[jobId];
      var changed := Changed(baseline, fields);
      var next := current;
      var rest := changed;
      while rest != {}
        invariant rest <= changed
        invariant forall field | field in changed - rest ::
                    At(current, field) == At(baseline, field) || At(current, field) == Some(fields[field])
        invariant next == current + map field | field in changed - rest :: fields[field]
        decreases rest
      {
        var field :| field in rest;
        if At(current, field) != At(baseline, field) && At(current, field) != Some(fields[field]) {
          return Err(Conflict);
        }
        next := next[field := fields[field]];
        rest := rest - {field};
      }
      assert changed - rest == changed;
      store.records := store.records[jobId := next];
      fields := fields + next;
      baseline := fields;
      return Ok(());
    }
  }

  // ---------- what a committed save wrote ----------

  /** A committed save writes only the fields its holder changed, and each of those still held the
    * holder's baseline or already the desired value; the commit condition is exact. */
  lemma {:induction false} SaveWritesOnlyChanges(current: Record, baseline: Record, desired: Record)
    ensures var r := MergeRecord(Some(current), baseline, desired);
            && (r.Ok? <==> (&& !Deleted(current)
                            && forall field | field in Changed(baseline, desired) ::
                                 At(current, field) == At(baseline, field)
                                 || At(current, field) == Some(desired[field])))
            && (r.Ok? ==> forall field ::
                  At(r.value, field) ==
                    if field in Changed(baseline, desired) then Some(desired[field]) else At(current, field))
  {
  }

  /** Exactly when a save finds no record: there is none, or its deletion mark is set to anything but null,
    * false, zero or the empty text. */
  lemma {:induction false} MissingExactly(current: Option<Record>, baseline: Record, desired: Record)
    ensures MergeRecord(current, baseline, desired) == Err(Missing) <==>
              || current.None?
              || (var mark := At(current.value, "logicalDeleted");
                  mark.Some? && mark.value != Null && mark.value != Text("")
                  && !(mark.value.Atom? && !mark.value.truthy))
  {
  }

  /** Field by field a save is the three-way merge, for every field the holder still has. */
  lemma {:induction false} SaveIsFieldwise(current: Record, baseline: Record, desired: Record, field: Field)
    requires field in desired
    ensures var r := MergeRecord(Some(current), baseline, desired);
            r.Ok? ==>
              MergeField(At(current, field), At(baseline, field), At(desired, field)) == Some(At(r.value, field))
    ensures !Deleted(current) && MergeField(At(current, field), At(baseline, field), At(desired, field)) == None ==>
              MergeRecord(Some(current), baseline, desired) == Err(Conflict)
  {
  }

  /** A field that was filled in while loading counts as unchanged as long as its holder leaves it, and
    * can never be changed by a save while the stored record still lacks it. */
  lemma {:induction false} FilledFieldConflicts(current: Record, baseline: Record, desired: Record, field: Field)
    requires field !in current && field in baseline && field in desired && !Deleted(current)
    ensures desired[field] != baseline[field] ==> MergeRecord(Some(current), baseline, desired) == Err(Conflict)
    ensures desired[field] == baseline[field] ==>
              var r := MergeRecord(Some(current), baseline, desired); r.Ok? ==> field !in r.value
  {
    if desired[field] != baseline[field] {
      assert field in Changed(baseline, desired);
    }
  }

  function Then(first: Result<Record, SaveError>, baseline: Record, desired: Record): Result<Record, SaveError> {
    match first
    case Ok(record) => MergeRecord(Some(record), baseline, desired)
    case Err(e) => Err(e)
  }

  lemma {:induction false} SecondSave(current: Record, baseline: Record, first: Record, second: Record)
    requires Changed(baseline, first) !! Changed(baseline, second)
    requires DELETED !in Changed(baseline, first)
    requires MergeRecord(Some(current), baseline, first).Ok?
    ensures var mid := MergeRecord(Some(current), baseline, first).value;
            && Deleted(mid) == Deleted(current)
            && Conflicting(mid, baseline, second) == Conflicting(current, baseline, second)
  {
    var mid := MergeRecord(Some(current), baseline, first).value;
    assert At(mid, DELETED) == At(current, DELETED);
    forall field | field in Changed(baseline, second) ensures At(mid, field) == At(current, field) {
    }
  }

  /** Saves from one baseline that change disjoint fields commute, and both commit in one order exactly
    * when both commit in the other. (A save that marks the record deleted is not such a save.) */
  lemma {:induction false} DisjointSavesCommute(current: Record, baseline: Record, a: Record, b: Record)
    requires Changed(baseline, a) !! Changed(baseline, b)
    requires DELETED !in Changed(baseline, a) && DELETED !in Changed(baseline, b)
    ensures Then(MergeRecord(Some(current), baseline, a), baseline, b)
            == Then(MergeRecord(Some(current), baseline, b), baseline, a)
  {
    var ra, rb := MergeRecord(Some(current), baseline, a), MergeRecord(Some(current), baseline, b);
    if ra.Ok? {
      SecondSave(current, baseline, a, b);
    }
    if rb.Ok? {
      SecondSave(current, baseline, b, a);
    }
    if ra.Ok? && rb.Ok? {
      var ab, ba := Then(ra, baseline, b).value, Then(rb, baseline, a).value;
      SaveWritesOnlyChanges(current, baseline, a);
      SaveWritesOnlyChanges(current, baseline, b);
      SaveWritesOnlyChanges(ra.value, baseline, b);
      SaveWritesOnlyChanges(rb.value, baseline, a);
      SameFields(ab, ba);
    }
  }

  lemma {:induction false} SameFields(a: Record, b: Record)
    requires forall field :: At(a, field) == At(b, field)
    ensures a == b
  {
    forall field ensures field in a <==> field in b {
      assert At(a, field) == At(b, field);
    }
    forall field | field in a ensures a[field] == b[field] {
      assert At(a, field) == At(b, field);
    }
  }

  // ---------- runs of saves ----------

  datatype SaveCall = SaveCall(baseline: Record, desired: Record)

  function Step(record: Record, call: SaveCall): Record {
    var r := MergeRecord(Some(record), call.baseline, call.desired);
    if r.Ok? then r.value else record
  }

  /** The stored record after the first `n` calls; a rejected call changes nothing. */
  function After(record: Record, calls: seq<SaveCall>, n: nat): Record
    requires n <= |calls|
  {
    if n == 0 then record else Step(After(record, calls, n - 1), calls[n - 1])
  }

  /** The value a call finds at a field is replaced only if the caller's baseline is that value. */
  lemma {:induction false} ReplacedOnlyByWitness(record: Record, call: SaveCall, field: Field)
    requires At(Step(record, call), field) != At(record, field)
    ensures At(call.baseline, field) == At(record, field)
    ensures At(call.desired, field) == At(Step(record, call), field)
  {
    SaveWritesOnlyChanges(record, call.baseline, call.desired);
  }

  /** Call `i` had loaded the value stored after `from` calls, found it still stored, and wrote its own. */
  predicate ReplacedKnowingly(record: Record, calls: seq<SaveCall>, from: nat, i: nat, field: Field)
    requires from <= i < |calls|
  {
    && At(calls[i].baseline, field) == At(After(record, calls, from), field)
    && At(calls[i].baseline, field) == At(After(record, calls, i), field)
    && At(calls[i].desired, field) == At(After(record, calls, i + 1), field)
  }

  /** No silent lost update: a value a run once stored at a field is either still there at the end, or
    * some later caller that had loaded exactly that value replaced it. */
  lemma {:induction false} NoSilentLostUpdate(record: Record, calls: seq<SaveCall>, from: nat, until: nat, field: Field)
    requires from <= until <= |calls|
    ensures || At(After(record, calls, until), field) == At(After(record, calls, from), field)
            || (exists i | from <= i < until :: ReplacedKnowingly(record, calls, from, i, field))
    decreases until
  {
    if from < until {
      NoSilentLostUpdate(record, calls, from, until - 1, field);
      var before := After(record, calls, until - 1);
      if At(before, field) == At(After(record, calls, from), field) {
        if At(After(record, calls, until), field) != At(before, field) {
          ReplacedOnlyByWitness(before, calls[until - 1], field);
          assert ReplacedKnowingly(record, calls, from, until - 1, field);
        }
      }
    }
  }
}
