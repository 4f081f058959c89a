/** The document store as an object: rows and a global revision changed in place, with the
  * begin/commit/rollback bracket of `atomic` (backend/src/db/sqliteStore.js). */
module SqliteStore {
  import opened Wrappers
  import opened JsonTree
  import opened DocumentTable

  lemma {:induction false} CollectionRows(rows: Rows, path: Path)
    requires WellFormed(rows) && 0 < |path| < FullDepth(path)
    ensures var part := map r | r in rows && r[0] == path[0] :: rows[r];
            WellFormed(part) && Get(Tree(part), path) == Get(Tree(rows), path)
  {
    var part := map r | r in rows && r[0] == path[0] :: rows[r];
    GetTree(part, path);
    GetTree(rows, path);
    assert AgreeUnder(part, rows, path);
    NodeLocal(part, rows, path);
  }

  function Whole(path: Path, value: Json): Json
    requires path != []
  {
    Get(Set(EMPTY, path, value), [path[0]])
  }

  lemma {:induction false} WholeShape(path: Path, value: Json)
    requires 0 < |path| < FullDepth(path) && !value.Null?
    ensures |path| == 1 ==> Whole(path, value) == value
    ensures |path| == 2 ==> Whole(path, value) == Obj(map[path[1] := value])
  {
    if |path| == 1 {
      assert path == [path[0]] && path[1..] == [];
      GetSetUnder(EMPTY, path, value, path);
    } else {
      assert path[1..] == [path[1]];
      GetSetAbove(EMPTY, path, value, [path[0]]);
    }
  }

  lemma {:induction false} ExpandWholeAt(path: Path, value: Json, anchor: Path)
    requires |path| == 2 < FullDepth(path) && !value.Null?
    ensures anchor in Expand([path[0]], Whole(path, value)) <==> anchor in Expand(path, value)
    ensures anchor in Expand(path, value) ==>
              Expand([path[0]], Whole(path, value))[anchor] == Expand(path, value)[anchor]
  {
    var collection := Whole(path, value);
    WholeShape(path, value);
    ExpandAnchor([path[0]], collection, anchor);
    ExpandAnchor(path, value, anchor);
    if |anchor| == 3 {
      var key, id := anchor[1], anchor[2];
      GetTwo(collection, key, id);
      assert anchor[1..] == [key, id] && anchor[2..] == [id];
      if key == path[1] {
        assert Get(collection, [key]) == value;
      }
    }
  }

  /** Placing a value at its path and expanding the whole collection adds the same rows as expanding
    * the value itself. */
  lemma {:induction false} ExpandWhole(path: Path, value: Json)
    requires 0 < |path| < FullDepth(path) && !value.Null?
    ensures Expand([path[0]], Whole(path, value)) == Expand(path, value)
  {
    WholeShape(path, value);
    if |path| == 1 {
      assert path == [path[0]];
    } else {
      forall anchor
        ensures anchor in Expand([path[0]], Whole(path, value)) <==> anchor in Expand(path, value)
        ensures anchor in Expand(path, value) ==>
                  Expand([path[0]], Whole(path, value))[anchor] == Expand(path, value)[anchor]
      {
        ExpandWholeAt(path, value, anchor);
      }
    }
  }

  lemma {:induction false} SpreadMemberOnly(name: Key, key: Key, value: Json)
    requires name in NESTED
    ensures Spread([name], Obj(map[key := value])) == Obj(map[key := Obj(Entries(value))])
  {
    var spread := Spread([name], Obj(map[key := value]));
    assert spread.fields == map[key := Obj(Entries(value))];
  }

  /** The same for the values whose members are taken apart. */
  lemma {:induction false} SpreadWhole(path: Path, value: Json)
    requires 0 < |path| < FullDepth(path) && !value.Null? && (|path| == 1 ==> value.Obj?)
    ensures Expand([path[0]], Spread([path[0]], Whole(path, value))) == Expand(path, Spread(path, value))
  {
    WholeShape(path, value);
    if |path| == 1 {
      assert path == [path[0]];
    } else {
      ExpandWhole(path, Spread(path, value));
      WholeShape(path, Spread(path, value));
      SpreadMemberOnly(path[0], path[1], value);
    }
  }

  /** The rows of one member of a collection object. */
  function MemberRows(name: Key, key: Key, child: Json): Rows {
    if name in NESTED then Expand([name, key], Obj(Entries(child)))
    else if child.Null? then map[]
    else map[[name, key] := Row(child, 1)]
  }

  lemma {:induction false} MemberRow(name: Key, collection: Json, anchor: Path)
    requires collection.Obj?
    ensures var added := Expand([name], Spread([name], collection));
            && (anchor in added <==> |anchor| >= 2 && anchor[1] in collection.fields
                                     && anchor in MemberRows(name, anchor[1], collection.fields[anchor[1]]))
            && (anchor in added ==>
                  added[anchor] == MemberRows(name, anchor[1], collection.fields[anchor[1]])[anchor])
  {
    var spread := Spread([name], collection);
    ExpandAnchor([name], spread, anchor);
    if |anchor| >= 2 && anchor[0] == name {
      var key := anchor[1];
      GetTwo(spread, key, key);
      if name in NESTED {
        if key in collection.fields {
          ExpandAnchor([name, key], Obj(Entries(collection.fields[key])), anchor);
        }
        if |anchor| == 3 {
          GetTwo(spread, key, anchor[2]);
          assert anchor[1..] == [key, anchor[2]] && anchor[2..] == [anchor[2]];
        }
      } else if |anchor| == 2 {
        assert anchor == [name, key] && anchor[1..] == [key];
      }
    }
  }

  /** The two tables agree at `a`, as far as rows of member `key` are concerned. */
  predicate SameMemberRow(added: Rows, member: Rows, key: Key, a: Path) {
    if a in member then |a| >= 2 && a[1] == key && a in added && added[a] == member[a]
    else !(a in added && |a| >= 2 && a[1] == key)
  }

  /** `added` is made of the rows of every member of `collection`. */
  ghost predicate HoldsCollection(added: Rows, name: Key, collection: Json)
    requires collection.Obj?
  {
    && (forall a | a in added :: |a| >= 2 && a[1] in collection.fields)
    && (forall key, a | key in collection.fields ::
          SameMemberRow(added, MemberRows(name, key, collection.fields[key]), key, a))
  }

  lemma {:induction false} ExpandHoldsCollection(name: Key, collection: Json)
    requires collection.Obj?
    ensures HoldsCollection(Expand([name], Spread([name], collection)), name, collection)
  {
    var added := Expand([name], Spread([name], collection));
    forall a | a in added
      ensures |a| >= 2 && a[1] in collection.fields
    {
      MemberRow(name, collection, a);
    }
    forall key, a | key in collection.fields
      ensures SameMemberRow(added, MemberRows(name, key, collection.fields[key]), key, a)
    {
      MemberRow(name, collection, a);
      if name in NESTED {
        ExpandAnchor([name, key], Obj(Entries(collection.fields[key])), a);
      }
    }
  }

  /** `added` holds exactly the non-null entries of `child`, each at its anchor with revision 1. */
  ghost predicate HoldsMember(added: Rows, name: Key, key: Key, child: Json) {
    && (forall a | a in added :: |a| == 3 && a == [name, key, a[2]] && a[2] in Entries(child))
    && (forall id | id in Entries(child) ::
          if Entries(child)[id].Null? then [name, key, id] !in added
          else [name, key, id] in added && added[[name, key, id]] == Row(Entries(child)[id], 1))
  }

  lemma {:induction false} MemberIds(name: Key, key: Key, child: Json)
    requires name in NESTED
    ensures HoldsMember(MemberRows(name, key, child), name, key, child)
  {
    var added, member := MemberRows(name, key, child), Obj(Entries(child));
    forall a | a in added
      ensures |a| == 3 && a == [name, key, a[2]] && a[2] in Entries(child)
    {
      ExpandAnchor([name, key], member, a);
      assert a[2..] == [a[2]];
    }
    forall id | id in Entries(child)
      ensures if Entries(child)[id].Null? then [name, key, id] !in added
              else [name, key, id] in added && added[[name, key, id]] == Row(Entries(child)[id], 1)
    {
      ExpandAnchor([name, key], member, [name, key, id]);
      assert [name, key, id][2..] == [id] && Get(member, [id]) == Entries(child)[id];
    }
  }

  /** The rows of the members already handled by the outer loop. */
  ghost function Inserted(added: Rows, keys: set<Key>): Rows {
    map a | a in added && (|a| < 2 || a[1] !in keys) :: added[a]
  }

  lemma {:induction false} InsertedMore(added: Rows, member: Rows, keys: set<Key>, key: Key)
    requires key in keys && forall a | a in added :: |a| >= 2
    requires forall a :: SameMemberRow(added, member, key, a)
    ensures Inserted(added, keys) + member == Inserted(added, keys - {key})
  {
    var before, after := Inserted(added, keys), Inserted(added, keys - {key});
    forall a
      ensures a in after <==> a in before + member
      ensures a in after ==> after[a] == (before + member)[a]
    {
      assert SameMemberRow(added, member, key, a);
    }
    assert after.Keys == (before + member).Keys;
  }

  lemma {:induction false} InsertedStep(added: Rows, name: Key, collection: Json, keys: set<Key>, key: Key)
    requires collection.Obj? && HoldsCollection(added, name, collection)
    requires keys <= collection.fields.Keys && key in keys
    ensures Inserted(added, keys) + MemberRows(name, key, collection.fields[key]) == Inserted(added, keys - {key})
    ensures forall a | a in Inserted(added, keys) :: !([name, key] <= a)
  {
    InsertedMore(added, MemberRows(name, key, collection.fields[key]), keys, key);
    forall a | a in Inserted(added, keys) ensures !([name, key] <= a) {
      assert a[1] != key;
    }
  }

  /** The rows of the entries already handled by the inner loop. */
  ghost function Placed(added: Rows, ids: set<Key>): Rows
    requires forall a | a in added :: |a| == 3
  {
    map a | a in added && a[2] !in ids :: added[a]
  }

  lemma {:induction false} PlacedStep(added: Rows, ids: set<Key>, name: Key, key: Key, child: Json, id: Key)
    requires HoldsMember(added, name, key, child) && ids <= Entries(child).Keys && id in ids
    ensures [name, key, id] !in Placed(added, ids)
    ensures Upsert(Placed(added, ids), [name, key, id], Entries(child)[id]) == Placed(added, ids - {id})
  {
    var anchor, before, after := [name, key, id], Placed(added, ids), Placed(added, ids - {id});
    forall a | a in added && a[2] == id ensures a == anchor {
    }
    assert anchor in added ==> after == before[anchor := added[anchor]];
  }

  lemma {:induction false} PlusUpsert(base: Rows, placed: Rows, anchor: Path, document: Json)
    requires anchor !in base && anchor !in placed
    ensures Upsert(base + placed, anchor, document) == base + Upsert(placed, anchor, document)
  {
  }

  lemma {:induction false} PlusPlus(base: Rows, placed: Rows, member: Rows)
    ensures (base + placed) + member == base + (placed + member)
  {
  }

  class SqliteStore {
    var documents: Rows
    var revision: nat
    var insideAtomic: bool

    ghost predicate Valid()
      reads this
    {
      WellFormed(documents)
    }

    constructor Initialize()
      ensures Valid() && documents == map[] && revision == 0 && !insideAtomic
    {
      documents := map[];
      revision := 0;
      insideAtomic := false;
    }

    static method FoldRows(rows: Rows) returns (tree: Json)
      requires WellFormed(rows)
      ensures tree == Tree(rows)
    {
      tree := EMPTY;
      var rest := rows.Keys;
      ghost var folded: Rows := map[];
      while rest != {}
        invariant rest <= rows.Keys && WellFormed(folded)
        invariant folded.Keys == rows.Keys - rest
        invariant forall r | r in folded :: folded[r] == rows[r]
        invariant tree == Tree(folded)
        decreases rest
      {
        var path :| path in rest;
        SetTree(folded, path, rows[path]);
        tree := Set(tree, path, rows[path].document);
        rest := rest - {path};
        folded := folded[path := rows[path]];
      }
      assert folded == rows;
    }

    /** Below the anchor depth one row is looked up; above it the rows are folded into a tree. */
    method Read(path: Path) returns (value: Json)
      requires Valid()
      ensures value == Get(Tree(documents), path)
    {
      var fullDepth := FullDepth(path);
      if |path| >= fullDepth {
        GetTree(documents, path);
        var anchor := path[..fullDepth];
        if anchor !in documents {
          return Null;
        }
        value := GetLoop(documents[anchor].document, path[fullDepth..]);
        return;
      }
      var rows := if path == [] then documents else map r | r in documents && r[0] == path[0] :: documents[r];
      var result := FoldRows(rows);
      if path != [] {
        CollectionRows(documents, path);
      }
      value := GetLoop(result, path);
    }

    method UpsertRow(anchor: Path, document: Json)
      requires Valid() && Anchored(anchor)
      modifies this`documents
      ensures Valid() && documents == Upsert(old(documents), anchor, document)
    {
      if document.Null? {
        documents := documents - {anchor};
      } else if anchor in documents {
        documents := documents[anchor := Row(document, documents[anchor].revision + 1)];
      } else {
        documents := documents[anchor := Row(document, 1)];
      }
    }

    /** The inner loop: every entry of one member of a nested collection, whatever the member is. */
    method InsertMember(name: Key, key: Key, child: Json, ghost added: Rows)
      requires Valid() && name in NESTED && HoldsMember(added, name, key, child)
      requires forall id :: [name, key, id] !in documents
      modifies this`documents
      ensures Valid() && documents == old(documents) + added
    {
      ghost var base := documents;
      var entries := Entries(child);
      var ids := entries.Keys;
      assert documents == base + Placed(added, ids);
      while ids != {}
        invariant Valid() && ids <= entries.Keys
        invariant documents == base + Placed(added, ids)
        decreases ids
      {
        var id :| id in ids;
        PlacedStep(added, ids, name, key, child, id);
        PlusUpsert(base, Placed(added, ids), [name, key, id], entries[id]);
        UpsertRow([name, key, id], entries[id]);
        ids := ids - {id};
      }
      assert Placed(added, {}) == added;
    }

    method InsertEntry(name: Key, key: Key, child: Json)
      requires Valid()
      requires forall a | a in documents :: !([name, key] <= a)
      modifies this`documents
      ensures Valid() && documents == old(documents) + MemberRows(name, key, child)
    {
      if name in NESTED {
        MemberIds(name, key, child);
        forall id ensures [name, key, id] !in documents {
          assert [name, key] <= [name, key, id];
        }
        InsertMember(name, key, child, MemberRows(name, key, child));
      } else {
        assert [name, key] <= [name, key];
        UpsertRow([name, key], child);
      }
    }

    /** The outer loop: every member of one collection object. */
    method InsertCollection(name: Key, collection: Json, ghost added: Rows)
      requires Valid() && collection.Obj?
      requires HoldsCollection(added, name, collection)
      requires forall key, a | key in collection.fields && a in documents :: !([name, key] <= a)
      modifies this`documents
      ensures Valid() && documents == old(documents) + added
    {
      ghost var base := documents;
      var keys := collection.fields.Keys;
      assert documents == base + Inserted(added, keys);
      while keys != {}
        invariant Valid() && keys <= collection.fields.Keys
        invariant documents == base + Inserted(added, keys)
        decreases keys
      {
        var key :| key in keys;
        InsertedStep(added, name, collection, keys, key);
        InsertEntry(name, key, collection.fields[key]);
        PlusPlus(base, Inserted(added, keys), MemberRows(name, key, collection.fields[key]));
        keys := keys - {key};
      }
      assert Inserted(added, {}) == added;
    }

    /** Above the anchors: delete every row under the path, then insert the new documents. */
    method ReplaceAbove(path: Path, next: Json) returns (ok: bool)
      requires Valid() && 0 < |path| < FullDepth(path)
      modifies this`documents
      ensures Valid()
      ensures ok <==> next.Null? || |path| > 1 || next.Obj?
      ensures ok ==> documents == if next.Null? then Without(old(documents), path)
                                  else Without(old(documents), path) + Expand(path, Spread(path, next))
    {
      documents := Without(documents, path);
      if next.Null? {
        return true;
      }
      var expanded := Set(EMPTY, path, next);
      var collection := GetLoop(expanded, [path[0]]);
      WholeShape(path, next);
      if !collection.Obj? {
        return false;
      }
      SpreadWhole(path, next);
      ExpandHoldsCollection(path[0], collection);
      forall key, a | key in collection.fields && a in documents
        ensures !([path[0], key] <= a)
      {
        assert path <= [path[0], key];
      }
      InsertCollection(path[0], collection, Expand([path[0]], Spread([path[0]], collection)));
      return true;
    }

    /** The branch of `write` at or below an anchor: one document is read, changed and stored. */
    method WriteDocument(path: Path, value: Json, merge: bool) returns (error: Option<TreeError>)
      requires Valid() && path != [] && |path| >= FullDepth(path)
      modifies this`documents
      ensures var spec := WriteAtAnchor(old(documents), path, value, merge);
              if spec.Ok? then error == None && documents == spec.value
              else error == Some(spec.error) && documents == old(documents)
    {
      var fullDepth := FullDepth(path);
      var anchor, tail := path[..fullDepth], path[fullDepth..];
      var document := Read(anchor);
      GetTree(documents, anchor);
      assert anchor[..fullDepth] == anchor && anchor[fullDepth..] == [];
      var next := value;
      if merge {
        var current := GetLoop(document, tail);
        var patched := PatchLoop(current, value);
        if patched.Err? {
          return Some(patched.error);
        }
        next := patched.value;
      }
      if tail != [] {
        var written := SetDocument(document, tail, next);
        if written.Err? {
          return Some(written.error);
        }
        next := written.value;
      }
      UpsertRow(anchor, next);
      return None;
    }

    /** The branch of `write` above the anchors. A refusal may leave rows deleted. */
    method WriteCollection(path: Path, value: Json, merge: bool) returns (error: Option<TreeError>)
      requires Valid() && 0 < |path| < FullDepth(path)
      modifies this`documents
      ensures Valid()
      ensures var spec := WriteAboveAnchor(old(documents), path, value, merge);
              if spec.Ok? then error == None && documents == spec.value else error == Some(spec.error)
    {
      var next := value;
      if merge {
        var current := Read(path);
        var patched := PatchLoop(current, value);
        if patched.Err? {
          return Some(patched.error);
        }
        next := patched.value;
      }
      var replaced := ReplaceAbove(path, next);
      return if replaced then None else Some(InvalidCollection);
    }

    /** `write`: the outermost call rolls back on any error; every committed call raises the revision. */
    method Write(path: Path, value: Json, merge: bool) returns (r: Result<Json, TreeError>)
      requires Valid()
      modifies this`documents, this`revision
      ensures Valid()
      ensures var spec := DocumentTable.Write(old(documents), path, value, merge);
              if spec.Ok? then
                r == Ok(value) && documents == spec.value && revision == old(revision) + 1
              else
                r == Err(spec.error) && revision == old(revision) && (!insideAtomic ==> documents == old(documents))
    {
      WriteKeepsWellFormed(documents, path, value, merge);
      if !JsonTree.Valid(value) {
        return Err(InvalidJson);
      }
      if !SafePath(path) || path == [] {
        return Err(InvalidDataPath);
      }
      var saved := documents;
      var error: Option<TreeError>;
      if |path| >= FullDepth(path) {
        error := WriteDocument(path, value, merge);
      } else {
        error := WriteCollection(path, value, merge);
      }
      if error.Some? {
        if !insideAtomic {
          documents := saved;
        }
        return Err(error.value);
      }
      revision := revision + 1;
      return Ok(value);
    }

    /** The commit half of `transact`: nothing is written unless the revision is the one read before. */
    method CommitIfUnchanged(before: nat, path: Path, next: Json) returns (r: Option<Result<Json, TreeError>>)
      requires Valid() && !insideAtomic
      modifies this
      ensures Valid() && !insideAtomic
      ensures old(revision) != before ==> r == None && documents == old(documents) && revision == old(revision)
      ensures old(revision) == before ==>
                var spec := DocumentTable.Write(old(documents), path, next, false);
                if spec.Ok? then r == Some(Ok(next)) && documents == spec.value && revision == before + 1
                else r == Some(Err(spec.error)) && documents == old(documents) && revision == before
    {
      if revision != before {
        return None;
      }
      var saved := documents;
      insideAtomic := true;
      var written := Write(path, next, false);
      if written.Err? {
        documents := saved;
      }
      insideAtomic := false;
      return Some(written);
    }
  }
}
