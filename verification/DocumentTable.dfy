/** The flat table of anchored documents behind the SQLite store, and the JSON tree it stands for
  * (backend/src/db/sqliteStore.js). A document is anchored two keys deep, three for the nested
  * collections; the tree of a table is the fold of all rows by `Set`. */
module DocumentTable {
  import opened Decimals
  import opened JsonTree
  import opened Wrappers

  const NESTED: set<Key> := {"job_files", "warning_items", "review_required_items"}

  datatype Row = Row(document: Json, revision: nat)
  type Rows = map<Path, Row>

  function FullDepth(path: Path): (depth: nat)
    ensures 2 <= depth <= 3
  {
    if path != [] && path[0] in NESTED then 3 else 2
  }

  /** Documents lie two keys deep, and three in exactly these collections. */
  lemma {:induction false} AnchorDepth(path: Path)
    ensures FullDepth(path) == 3 <==>
              path != [] && (path[0] == "job_files" || path[0] == "warning_items" || path[0] == "review_required_items")
  {
  }

  predicate Anchored(path: Path) {
    |path| == FullDepth(path)
  }

  predicate WellFormed(rows: Rows) {
    forall path | path in rows :: Anchored(path) && !rows[path].document.Null?
  }

  function Lookup(rows: Rows, path: Path): Json {
    if path in rows then rows[path].document else Null
  }

  // ---------- the tree of a table ----------

  function Children(rows: Rows, q: Path): set<Key> {
    set path | path in rows && q <= path && |path| > |q| :: path[|q|]
  }

  /** The subtree at `q` of the tree a table stands for; null when no row lies at or under `q`. */
  function Node(rows: Rows, q: Path): Json
    requires WellFormed(rows)
    decreases 3 - |q|
  {
    if q in rows then rows[q].document
    else if Children(rows, q) == {} then Null
    else Obj(map key | key in Children(rows, q) :: Node(rows, q + [key]))
  }

  function Tree(rows: Rows): (tree: Json)
    requires WellFormed(rows)
    ensures tree.Obj?
  {
    ObjectOr(Node(rows, []))
  }

  ghost predicate AgreeUnder(a: Rows, b: Rows, q: Path) {
    forall path | q <= path :: (path in a <==> path in b) && (path in a ==> a[path].document == b[path].document)
  }

  lemma {:induction false} ChildrenLocal(a: Rows, b: Rows, q: Path)
    requires AgreeUnder(a, b, q)
    ensures q in a <==> q in b
    ensures q in a ==> a[q].document == b[q].document
    ensures Children(a, q) == Children(b, q)
    ensures forall key :: AgreeUnder(a, b, q + [key])
  {
  }

  lemma {:induction false} NodeFromChildren(a: Rows, b: Rows, q: Path)
    requires WellFormed(a) && WellFormed(b) && q !in a && q !in b && Children(a, q) == Children(b, q)
    requires forall key | key in Children(a, q) :: Node(a, q + [key]) == Node(b, q + [key])
    ensures Node(a, q) == Node(b, q)
  {
  }

  lemma {:induction false} NodeLocal(a: Rows, b: Rows, q: Path)
    requires WellFormed(a) && WellFormed(b) && AgreeUnder(a, b, q)
    ensures Node(a, q) == Node(b, q)
    decreases 3 - |q|
  {
    ChildrenLocal(a, b, q);
    if q !in a {
      forall key | key in Children(a, q)
        ensures Node(a, q + [key]) == Node(b, q + [key])
      {
        NodeLocal(a, b, q + [key]);
      }
      NodeFromChildren(a, b, q);
    }
  }

  lemma {:induction false} NodeEmpty(rows: Rows, q: Path)
    requires WellFormed(rows)
    requires forall path | path in rows :: !(q <= path)
    ensures Node(rows, q) == Null
  {
  }

  lemma {:induction false} NoChild(rows: Rows, q: Path, key: Key)
    requires WellFormed(rows) && key !in Children(rows, q)
    ensures forall path | path in rows :: !(q + [key] <= path)
  {
    forall path | path in rows
      ensures !(q + [key] <= path)
    {
      if q <= path && |path| > |q| {
        assert path[|q|] in Children(rows, q);
      }
    }
  }

  lemma {:induction false} NodeChild(rows: Rows, q: Path, key: Key)
    requires WellFormed(rows) && q !in rows
    ensures Get(ObjectOr(Node(rows, q)), [key]) == Node(rows, q + [key])
  {
    if key !in Children(rows, q) {
      NoChild(rows, q, key);
      NodeEmpty(rows, q + [key]);
    }
  }

  lemma {:induction false} ChildrenAdded(rows: Rows, path: Path, row: Row, q: Path)
    requires q <= path && q != path
    ensures Children(rows[path := row], q) == Children(rows, q) + {path[|q|]}
  {
    var added := rows[path := row];
    assert path in added;
    forall key | key in Children(rows, q) ensures key in Children(added, q) {
      var p :| p in rows && q <= p && |p| > |q| && p[|q|] == key;
      assert p in added;
    }
  }

  lemma {:induction false} SiblingKept(rows: Rows, path: Path, row: Row, q: Path, key: Key)
    requires WellFormed(rows) && Anchored(path) && !row.document.Null? && q <= path && q != path
    requires key != path[|q|]
    ensures Node(rows[path := row], q + [key]) == Node(rows, q + [key])
  {
    assert (q + [key])[|q|] == key;
    NodeLocal(rows, rows[path := row], q + [key]);
  }

  lemma {:induction false} AnchorsNotNested(rows: Rows, path: Path, q: Path)
    requires WellFormed(rows) && q <= path && |q| < |path| <= FullDepth(path)
    ensures q !in rows
  {
    if q != [] {
      assert FullDepth(q) == FullDepth(path);
    }
  }

  lemma {:induction false} NodeFields(rows: Rows, q: Path)
    requires WellFormed(rows) && q !in rows
    ensures ObjectOr(Node(rows, q)).fields == map key | key in Children(rows, q) :: Node(rows, q + [key])
  {
  }

  lemma {:induction false} FieldAdded(before: map<Key, Json>, after: map<Key, Json>, key: Key)
    requires after.Keys == before.Keys + {key} && forall k | k in before && k != key :: after[k] == before[k]
    ensures after == before[key := after[key]]
  {
  }

  lemma {:induction false} ChildrenOfAdded(rows: Rows, path: Path, row: Row, q: Path, k: Key)
    requires WellFormed(rows) && Anchored(path) && !row.document.Null? && q <= path && q != path
    requires q !in rows && k in Children(rows, q) && k != path[|q|]
    ensures q !in rows[path := row] && k in Children(rows[path := row], q)
    ensures ObjectOr(Node(rows[path := row], q)).fields[k] == ObjectOr(Node(rows, q)).fields[k]
  {
    ChildrenAdded(rows, path, row, q);
    SiblingKept(rows, path, row, q, k);
  }

  lemma {:induction false} NodeAdded(rows: Rows, path: Path, row: Row, q: Path, key: Key)
    requires WellFormed(rows) && Anchored(path) && !row.document.Null? && q <= path && q != path && key == path[|q|]
    ensures Node(rows[path := row], q)
         == Obj(ObjectOr(Node(rows, q)).fields[key := Node(rows[path := row], q + [key])])
  {
    var added := rows[path := row];
    AnchorsNotNested(rows, path, q);
    ChildrenAdded(rows, path, row, q);
    NodeFields(rows, q);
    NodeFields(added, q);
    var before, after := ObjectOr(Node(rows, q)).fields, ObjectOr(Node(added, q)).fields;
    forall k | k in before && k != key
      ensures after[k] == before[k]
    {
      ChildrenOfAdded(rows, path, row, q, k);
    }
    FieldAdded(before, after, key);
  }

  /** One step of the fold: writing a document at its anchor adds or replaces one row. */
  lemma {:induction false} SetNode(rows: Rows, path: Path, row: Row, q: Path)
    requires WellFormed(rows) && Anchored(path) && !row.document.Null? && q <= path && q != path
    ensures Set(ObjectOr(Node(rows, q)), path[|q|..], row.document) == Node(rows[path := row], q)
    decreases |path| - |q|
  {
    var key, rest := path[|q|], path[|q|..];
    AnchorsNotNested(rows, path, q);
    NodeAdded(rows, path, row, q, key);
    NodeChild(rows, q, key);
    assert q + [key] <= path;
    if q + [key] == path {
      assert rest == [key];
    } else {
      SetNode(rows, path, row, q + [key]);
      assert rest[1..] == path[|q + [key]|..];
    }
  }

  lemma {:induction false} SetTree(rows: Rows, path: Path, row: Row)
    requires WellFormed(rows) && Anchored(path) && !row.document.Null?
    ensures Set(Tree(rows), path, row.document) == Tree(rows[path := row])
  {
    SetNode(rows, path, row, []);
    assert path[0..] == path;
  }

  /** At or above the anchor depth, a subtree read is the node. */
  lemma {:induction false} GetNode(rows: Rows, q: Path, r: Path)
    requires WellFormed(rows) && |q + r| <= FullDepth(q + r)
    ensures Get(Node(rows, q), r) == Node(rows, q + r)
    decreases |r|
  {
    if r == [] {
      assert q + r == q;
    } else {
      assert q + r == (q + [r[0]]) + r[1..];
      AnchorsNotNested(rows, q + r, q);
      NodeChild(rows, q, r[0]);
      GetNode(rows, q + [r[0]], r[1..]);
      assert Get(Node(rows, q), r) == Get(Get(ObjectOr(Node(rows, q)), [r[0]]), r[1..]);
    }
  }

  lemma {:induction false} AnchorsIncomparable(a: Path, b: Path)
    requires Anchored(a) && Anchored(b)
    ensures Comparable(a, b) <==> a == b
  {
    if a[0] == b[0] {
      assert FullDepth(a) == FullDepth(b) == |a| == |b|;
      assert a == a[..|b|] && b == b[..|a|];
    }
  }

  lemma {:induction false} GetTree(rows: Rows, path: Path)
    requires WellFormed(rows) && path != []
    ensures |path| <= FullDepth(path) ==> Get(Tree(rows), path) == Node(rows, path)
    ensures |path| >= FullDepth(path) ==>
              Get(Tree(rows), path) == Get(Lookup(rows, path[..FullDepth(path)]), path[FullDepth(path)..])
  {
    var depth := FullDepth(path);
    if |path| <= depth {
      GetNode(rows, [], path);
      assert [] + path == path;
    }
    if |path| >= depth {
      var anchor, tail := path[..depth], path[depth..];
      GetNode(rows, [], anchor);
      assert [] + anchor == anchor && anchor + tail == path;
      GetConcat(Tree(rows), anchor, tail);
      assert Node(rows, anchor) == Lookup(rows, anchor) by {
        if anchor !in rows {
          forall r | r in rows ensures !(anchor <= r) {
            AnchorsIncomparable(anchor, r);
          }
          NodeEmpty(rows, anchor);
        }
      }
    }
  }

  /** Every container above the anchors is non-empty: absent is the only spelling of empty. */
  lemma {:induction false} NoEmptyContainer(rows: Rows, path: Path)
    requires WellFormed(rows) && 0 < |path| < FullDepth(path)
    ensures var at := Get(Tree(rows), path); at.Null? || (at.Obj? && at.fields != map[])
  {
    GetTree(rows, path);
    if Children(rows, path) != {} {
      var key :| key in Children(rows, path);
      assert key in Node(rows, path).fields;
    }
  }

  // ---------- write ----------

  function Upsert(rows: Rows, anchor: Path, document: Json): Rows {
    if document.Null? then rows - {anchor}
    else rows[anchor := Row(document, if anchor in rows then rows[anchor].revision + 1 else 1)]
  }

  /** A number, boolean or text that JavaScript does not read as false. */
  predicate Primitive(document: Json) {
    Truthy(document) && !document.Obj? && !document.List?
  }

  /** An own property of a primitive: a character or the length of a text. */
  function OwnMember(primitive: Json, key: Key): Option<Json> {
    if !primitive.Text? then None
    else if key == "length" then Some(Atom(Decimal(|primitive.text|), primitive.text != ""))
    else if key in Entries(primitive) then Some(Entries(primitive)[key])
    else None
  }

  /** Walking to the last key of `tail` meets no missing member. */
  predicate ReachesLast(primitive: Json, tail: Path)
    decreases |tail|
  {
    |tail| <= 1
    || (OwnMember(primitive, tail[0]).Some? && ReachesLast(OwnMember(primitive, tail[0]).value, tail[1..]))
  }

  /** `tree.set(document || {}, tail, next)` on a stored document. Assigning a property of a primitive
    * does nothing; assigning through a missing member of one throws. */
  function SetDocument(document: Json, tail: Path, next: Json): Result<Json, TreeError>
    requires tail != []
  {
    if Primitive(document) then
      if ReachesLast(document, tail) then Ok(document) else Err(NotAnObject)
    else
      Ok(Set(ObjectOr(document), tail, next))
  }

  function Fields(value: Json): set<Key> {
    if value.Obj? then value.fields.Keys else {}
  }

  /** The anchored, non-null documents inside a value placed above the anchor depth. */
  function AnchorsUnder(path: Path, value: Json): set<Path>
    requires 0 < |path| < FullDepth(path)
  {
    if |path| + 1 == FullDepth(path) then
      set key | key in Fields(value) && !value.fields[key].Null? :: path + [key]
    else
      set key, id | key in Fields(value) && id in Fields(value.fields[key]) && !value.fields[key].fields[id].Null?
        :: path + [key, id]
  }

  function Expand(path: Path, value: Json): Rows
    requires 0 < |path| < FullDepth(path)
  {
    map anchor | anchor in AnchorsUnder(path, value) :: Row(Get(value, anchor[|path|..]), 1)
  }

  /** The value whose documents the insertion loops store: each member of a nested collection is taken
    * apart into its entries, whatever it is. */
  function Spread(path: Path, value: Json): Json
    requires 0 < |path| < FullDepth(path)
  {
    if path[0] !in NESTED || (|path| == 1 && !value.Obj?) then value
    else if |path| == 2 then Obj(Entries(value))
    else Obj(map key | key in value.fields :: Obj(Entries(value.fields[key])))
  }

  function Without(rows: Rows, path: Path): Rows {
    map r | r in rows && !(path <= r) :: rows[r]
  }

  function Merged(current: Json, value: Json, merge: bool): Result<Json, TreeError> {
    if merge then Patch(current, value) else Ok(value)
  }

  function WriteAtAnchor(rows: Rows, path: Path, value: Json, merge: bool): Result<Rows, TreeError>
    requires path != [] && |path| >= FullDepth(path)
  {
    var anchor, tail := path[..FullDepth(path)], path[FullDepth(path)..];
    var document := Lookup(rows, anchor);
    var next :- Merged(Get(document, tail), value, merge);
    var written :- if tail == [] then Ok(next) else SetDocument(document, tail, next);
    Ok(Upsert(rows, anchor, written))
  }

  function WriteAboveAnchor(rows: Rows, path: Path, value: Json, merge: bool): Result<Rows, TreeError>
    requires WellFormed(rows) && 0 < |path| < FullDepth(path)
  {
    var next :- Merged(Get(Tree(rows), path), value, merge);
    if next.Null? then Ok(Without(rows, path))
    else if |path| == 1 && !next.Obj? then Err(InvalidCollection)
    else Ok(Without(rows, path) + Expand(path, Spread(path, next)))
  }

  /** The whole write: value check, path check, then one of the two branches. */
  function Write(rows: Rows, path: Path, value: Json, merge: bool): Result<Rows, TreeError>
    requires WellFormed(rows)
  {
    if !JsonTree.Valid(value) then Err(InvalidJson)
    else if !SafePath(path) || path == [] then Err(InvalidDataPath)
    else if |path| >= FullDepth(path) then WriteAtAnchor(rows, path, value, merge)
    else WriteAboveAnchor(rows, path, value, merge)
  }

  lemma {:induction false} WriteKeepsWellFormed(rows: Rows, path: Path, value: Json, merge: bool)
    requires WellFormed(rows)
    ensures Write(rows, path, value, merge).Ok? ==> WellFormed(Write(rows, path, value, merge).value)
  {
    if path != [] && |path| >= FullDepth(path) {
      assert FullDepth(path[..FullDepth(path)]) == FullDepth(path);
    } else if path != [] {
      forall value, anchor | anchor in AnchorsUnder(path, value)
        ensures Anchored(anchor) && !Get(value, anchor[|path|..]).Null?
      {
        ExpandAnchor(path, value, anchor);
      }
    }
  }

  lemma {:induction false} ExpandAnchor(path: Path, value: Json, anchor: Path)
    requires 0 < |path| < FullDepth(path)
    ensures anchor in AnchorsUnder(path, value)
       <==> path <= anchor && Anchored(anchor) && !Get(value, anchor[|path|..]).Null?
  {
    if |path| + 1 == FullDepth(path) {
      forall key ensures Get(value, [key]) == if key in Fields(value) then value.fields[key] else Null {
      }
      if path <= anchor && |anchor| == |path| + 1 {
        assert anchor == path + [anchor[|path|]] && anchor[|path|..] == [anchor[|path|]];
      }
    } else {
      forall key, id
        ensures Get(value, [key, id])
             == if key in Fields(value) && id in Fields(value.fields[key]) then value.fields[key].fields[id] else Null
      {
        GetTwo(value, key, id);
        GetTwo(Get(value, [key]), id, id);
      }
      if path <= anchor && |anchor| == |path| + 2 {
        assert anchor == path + [anchor[|path|], anchor[|path| + 1]];
        assert anchor[|path|..] == [anchor[|path|], anchor[|path| + 1]];
      }
    }
    if path <= anchor {
      assert FullDepth(anchor) == FullDepth(path);
    }
  }

  // ---------- the table refines the tree ----------

  /** A plain tree and a table hold the same documents. */
  ghost predicate SameDocuments(tree: Json, rows: Rows) {
    forall anchor | Anchored(anchor) :: Get(tree, anchor) == Lookup(rows, anchor)
  }

  /** Above the anchors the tree has objects only. */
  ghost predicate ContainersAbove(tree: Json) {
    forall q | 0 < |q| < FullDepth(q) :: Get(tree, q).Null? || Get(tree, q).Obj?
  }

  /** The table stands for the plain tree. Containers above the anchors that hold no document are the
    * only difference this ignores. */
  ghost predicate StandsFor(tree: Json, rows: Rows) {
    SameDocuments(tree, rows) && ContainersAbove(tree)
  }

  /** The same write on a plain tree. */
  function TreeWrite(tree: Json, path: Path, value: Json, merge: bool): Result<Json, TreeError>
    requires tree.Obj? && path != []
  {
    var next :- Merged(Get(tree, path), value, merge);
    Ok(Set(tree, path, next))
  }

  /** One of two cases in which a table write is not the tree write: a path continues below an anchor
    * whose document is a truthy primitive. */
  predicate IntoPrimitive(rows: Rows, path: Path) {
    path != [] && |path| > FullDepth(path) && Primitive(Lookup(rows, path[..FullDepth(path)]))
  }

  predicate NoObject(member: Json) {
    !member.Null? && !member.Obj?
  }

  /** The other case: a text, number, boolean or list is written as a member of a nested collection. */
  predicate PlacesNoObject(path: Path, value: Json) {
    && 0 < |path| < FullDepth(path) && path[0] in NESTED
    && if |path| == 2 then NoObject(value)
       else value.Obj? && exists key | key in value.fields :: NoObject(value.fields[key])
  }

  /** A member of a nested collection that is no object but has entries that are stored. */
  predicate MemberSplits(member: Json) {
    !member.Obj? && exists key | key in Entries(member) :: !Entries(member)[key].Null?
  }

  /** Those members of the other case that leave documents behind. */
  predicate Splits(path: Path, value: Json) {
    && 0 < |path| < FullDepth(path) && path[0] in NESTED
    && if |path| == 2 then MemberSplits(value)
       else value.Obj? && exists key | key in value.fields :: MemberSplits(value.fields[key])
  }

  lemma {:induction false} TextSplits(text: string)
    ensures MemberSplits(Text(text)) <==> text != ""
  {
    if text != "" {
      TextEntries(text, Decimal(0));
    }
  }

  lemma {:induction false} TreeHoldsItsRows(rows: Rows)
    requires WellFormed(rows)
    ensures StandsFor(Tree(rows), rows)
  {
    forall q | 0 < |q| < FullDepth(q)
      ensures Get(Tree(rows), q).Null? || Get(Tree(rows), q).Obj?
    {
      NoEmptyContainer(rows, q);
    }
    forall anchor | Anchored(anchor)
      ensures Get(Tree(rows), anchor) == Lookup(rows, anchor)
    {
      GetTree(rows, anchor);
      assert anchor[..FullDepth(anchor)] == anchor && anchor[FullDepth(anchor)..] == [];
    }
  }

  /** Reading at or below an anchor: the table and the tree agree exactly. */
  lemma {:induction false} ReadSimulates(tree: Json, rows: Rows, path: Path)
    requires WellFormed(rows) && SameDocuments(tree, rows) && path != [] && |path| >= FullDepth(path)
    ensures Get(Tree(rows), path) == Get(tree, path)
  {
    var anchor, tail := path[..FullDepth(path)], path[FullDepth(path)..];
    GetTree(rows, path);
    assert Anchored(anchor) && anchor + tail == path;
    GetConcat(tree, anchor, tail);
  }

  /** Reading above the anchors: the two values hold the same documents. */
  lemma {:induction false} ReadAboveSimulates(tree: Json, rows: Rows, path: Path, rest: Path)
    requires WellFormed(rows) && SameDocuments(tree, rows) && Anchored(path + rest)
    ensures Get(Get(Tree(rows), path), rest) == Get(Get(tree, path), rest)
  {
    TreeHoldsItsRows(rows);
    GetConcat(Tree(rows), path, rest);
    GetConcat(tree, path, rest);
  }

  lemma {:induction false} AnchorIsUnique(path: Path, anchor: Path)
    requires path != [] && |path| >= FullDepth(path) && Anchored(anchor) && Comparable(path, anchor)
    ensures anchor == path[..FullDepth(path)]
  {
    assert FullDepth(path) == FullDepth(anchor);
  }

  lemma {:induction false} WriteAtAnchorSimulates(tree: Json, rows: Rows, path: Path, value: Json, merge: bool)
    requires tree.Obj? && WellFormed(rows) && SameDocuments(tree, rows)
    requires path != [] && |path| >= FullDepth(path)
    requires WriteAtAnchor(rows, path, value, merge).Ok?
    ensures TreeWrite(tree, path, value, merge).Ok?
    ensures SameDocuments(TreeWrite(tree, path, value, merge).value, WriteAtAnchor(rows, path, value, merge).value)
       <==> !IntoPrimitive(rows, path)
  {
    var anchor, tail := path[..FullDepth(path)], path[FullDepth(path)..];
    var document := Lookup(rows, anchor);
    assert Anchored(anchor) && anchor + tail == path;
    GetConcat(tree, anchor, tail);
    var next := Merged(Get(document, tail), value, merge).value;
    var tree' := TreeWrite(tree, path, value, merge).value;
    var rows' := WriteAtAnchor(rows, path, value, merge).value;
    assert tree' == Set(tree, path, next);
    forall a | Anchored(a) && a != anchor
      ensures Get(tree', a) == Lookup(rows', a)
    {
      if Comparable(path, a) {
        AnchorIsUnique(path, a);
      }
      GetSetOther(tree, path, next, a);
      assert Lookup(rows', a) == Lookup(rows, a);
    }
    if tail == [] {
      assert path == anchor && path[|path|..] == [];
      GetSetUnder(tree, path, next, anchor);
    } else {
      GetSetAbove(tree, path, next, anchor);
    }
  }

  lemma {:induction false} PatchUnder(a: Json, b: Json, payload: Json, rest: Path)
    requires rest != [] && Patch(a, payload).Ok? && Get(a, rest) == Get(b, rest)
    ensures Get(Patch(a, payload).value, rest) == Get(Patch(b, payload).value, rest)
  {
    assert Get(ObjectOr(a), rest) == Get(a, rest) && Get(ObjectOr(b), rest) == Get(b, rest);
  }

  /** Taking members apart changes no document exactly when no member splits. */
  lemma {:induction false} SpreadMember(member: Json, id: Key)
    ensures !MemberSplits(member) ==> Get(Obj(Entries(member)), [id]) == Get(member, [id])
  {
  }

  lemma {:induction false} SpreadKeeps(path: Path, value: Json, rest: Path)
    requires 0 < |path| < FullDepth(path) && Anchored(path + rest) && !Splits(path, value)
    ensures Get(Spread(path, value), rest) == Get(value, rest)
  {
    assert FullDepth(path + rest) == FullDepth(path);
    if path[0] in NESTED {
      if |path| == 2 {
        assert rest == [rest[0]];
        SpreadMember(value, rest[0]);
      } else {
        assert rest == [rest[0], rest[1]];
        GetTwo(value, rest[0], rest[1]);
        GetTwo(Spread(path, value), rest[0], rest[1]);
        if value.Obj? && rest[0] in value.fields {
          SpreadMember(value.fields[rest[0]], rest[1]);
        }
      }
    }
  }

  /** The documents of a member that splits are new to the tree. */
  lemma {:induction false} SpreadAdds(path: Path, value: Json) returns (rest: Path)
    requires 0 < |path| < FullDepth(path) && Splits(path, value)
    ensures Anchored(path + rest) && rest != []
    ensures Get(value, rest).Null? && !Get(Spread(path, value), rest).Null?
  {
    if |path| == 2 {
      var id :| id in Entries(value) && !Entries(value)[id].Null?;
      rest := [id];
    } else {
      var key :| key in value.fields && MemberSplits(value.fields[key]);
      var id :| id in Entries(value.fields[key]) && !Entries(value.fields[key])[id].Null?;
      rest := [key, id];
      GetTwo(value, key, id);
      GetTwo(Spread(path, value), key, id);
    }
    assert FullDepth(path + rest) == FullDepth(path);
  }

  lemma {:induction false} StoredMember(rows: Rows, path: Path, key: Key)
    requires WellFormed(rows) && |path| == 1 && path[0] in NESTED
    ensures !MemberSplits(Get(Get(Tree(rows), path), [key]))
  {
    assert path + [key] == [path[0], key];
    GetConcat(Tree(rows), path, [key]);
    NoEmptyContainer(rows, path + [key]);
  }

  /** A merge adds the members of the payload to members that are objects. */
  lemma {:induction false} MergeSplits(rows: Rows, path: Path, value: Json, merge: bool)
    requires WellFormed(rows) && 0 < |path| < FullDepth(path)
    requires Merged(Get(Tree(rows), path), value, merge).Ok?
    ensures Splits(path, Merged(Get(Tree(rows), path), value, merge).value) <==> Splits(path, value)
  {
    var current := Get(Tree(rows), path);
    if merge && path[0] in NESTED && |path| == 1 {
      var next := Patch(current, value).value;
      forall key | key in next.fields && key !in value.fields
        ensures !MemberSplits(next.fields[key])
      {
        assert next.fields[key] == Get(current, [key]);
        StoredMember(rows, path, key);
      }
      forall key | key in value.fields && MemberSplits(value.fields[key])
        ensures key in next.fields && next.fields[key] == value.fields[key]
      {
      }
    }
  }

  /** What the tree holds at an anchor after a write above it. */
  lemma {:induction false} TreeAtAnchor(tree: Json, rows: Rows, path: Path, value: Json, merge: bool, a: Path)
    requires tree.Obj? && WellFormed(rows) && SameDocuments(tree, rows)
    requires 0 < |path| < FullDepth(path) && Anchored(a)
    requires Merged(Get(Tree(rows), path), value, merge).Ok?
    ensures TreeWrite(tree, path, value, merge).Ok?
    ensures Get(TreeWrite(tree, path, value, merge).value, a) ==
              if path <= a then Get(Merged(Get(Tree(rows), path), value, merge).value, a[|path|..]) else Lookup(rows, a)
  {
    var treeNext := Merged(Get(tree, path), value, merge).value;
    if path <= a {
      var rest := a[|path|..];
      assert path + rest == a && rest != [];
      GetSetUnder(tree, path, treeNext, a);
      if merge {
        ReadAboveSimulates(tree, rows, path, rest);
        PatchUnder(Get(Tree(rows), path), Get(tree, path), value, rest);
      }
    } else {
      assert !(a <= path) by {
        if a[0] == path[0] {
          assert FullDepth(a) == FullDepth(path);
        }
      }
      GetSetOther(tree, path, treeNext, a);
    }
  }

  /** What the table holds at an anchor after a write above it. */
  lemma {:induction false} RowsAtAnchor(rows: Rows, path: Path, value: Json, merge: bool, a: Path)
    requires WellFormed(rows) && 0 < |path| < FullDepth(path) && Anchored(a)
    requires WriteAboveAnchor(rows, path, value, merge).Ok?
    ensures var next := Merged(Get(Tree(rows), path), value, merge).value;
            Lookup(WriteAboveAnchor(rows, path, value, merge).value, a) ==
              if path <= a then (if next.Null? then Null else Get(Spread(path, next), a[|path|..]))
              else Lookup(rows, a)
  {
    var next := Merged(Get(Tree(rows), path), value, merge).value;
    if !next.Null? {
      ExpandAnchor(path, Spread(path, next), a);
    }
  }

  lemma {:induction false} WriteAboveAnchorSimulates(tree: Json, rows: Rows, path: Path, value: Json, merge: bool)
    requires tree.Obj? && WellFormed(rows) && SameDocuments(tree, rows)
    requires 0 < |path| < FullDepth(path)
    requires WriteAboveAnchor(rows, path, value, merge).Ok?
    ensures TreeWrite(tree, path, value, merge).Ok?
    ensures SameDocuments(TreeWrite(tree, path, value, merge).value, WriteAboveAnchor(rows, path, value, merge).value)
       <==> !Splits(path, value)
  {
    var next := Merged(Get(Tree(rows), path), value, merge).value;
    var tree' := TreeWrite(tree, path, value, merge).value;
    var rows' := WriteAboveAnchor(rows, path, value, merge).value;
    MergeSplits(rows, path, value, merge);
    if Splits(path, value) {
      var rest := SpreadAdds(path, next);
      var a := path + rest;
      assert a[|path|..] == rest && path <= a;
      TreeAtAnchor(tree, rows, path, value, merge, a);
      RowsAtAnchor(rows, path, value, merge, a);
    } else {
      forall a | Anchored(a)
        ensures Get(tree', a) == Lookup(rows', a)
      {
        TreeAtAnchor(tree, rows, path, value, merge, a);
        RowsAtAnchor(rows, path, value, merge, a);
        if path <= a {
          assert path + a[|path|..] == a;
          SpreadKeeps(path, next, a[|path|..]);
        }
      }
    }
  }

  /** The keys of a write above the anchors that become parts of row paths are not empty. The source
    * stores a row with an empty part under a shorter path. */
  predicate NamesMembers(path: Path, value: Json) {
    && "" !in path
    && (0 < |path| < FullDepth(path) && value.Obj? ==>
          && "" !in value.fields
          && (|path| + 1 < FullDepth(path) ==>
                forall key | key in value.fields && value.fields[key].Obj? :: "" !in value.fields[key].fields))
  }

  lemma {:induction false} PlacingSplits(path: Path, value: Json)
    ensures Splits(path, value) ==> PlacesNoObject(path, value)
  {
  }

  /** What the tree reads above the anchors after a write that is not above them, or not there. */
  lemma {:induction false} ContainersElsewhere(tree: Json, path: Path, next: Json, q: Path)
    requires tree.Obj? && path != [] && ContainersAbove(tree) && 0 < |q| < FullDepth(q) && !(path <= q)
    ensures var at := Get(Set(tree, path, next), q); at.Null? || at.Obj?
  {
    if q <= path {
      GetSetAbove(tree, path, next, q);
    } else {
      GetSetOther(tree, path, next, q);
    }
  }

  lemma {:induction false} ContainersBelow(tree: Json, path: Path, next: Json, q: Path)
    requires tree.Obj? && path != [] && path <= q
    ensures Get(Set(tree, path, next), q) == Get(next, q[|path|..])
  {
    GetSetUnder(tree, path, next, q);
  }

  lemma {:induction false} PlacedMember(tree: Json, path: Path, value: Json, merge: bool, key: Key)
    requires tree.Obj? && ContainersAbove(tree) && |path| == 1 && path[0] in NESTED
    requires TreeWrite(tree, path, value, merge).Ok? && (!merge ==> value.Null? || value.Obj?)
    ensures var at := Get(TreeWrite(tree, path, value, merge).value, path + [key]);
            (at.Null? || at.Obj?) <==> !(value.Obj? && key in value.fields && NoObject(value.fields[key]))
  {
    var next := Merged(Get(tree, path), value, merge).value;
    ContainersBelow(tree, path, next, path + [key]);
    assert (path + [key])[|path|..] == [key];
    assert Get(next, [key]) == if next.Obj? && key in next.fields then next.fields[key] else Null;
    if merge && key !in value.fields {
      GetConcat(tree, path, [key]);
      assert 0 < |path + [key]| < FullDepth(path + [key]);
    }
  }

  /** A write keeps the tree to containers above the anchors exactly when it places no other member. */
  lemma {:induction false} ContainersKept(tree: Json, path: Path, value: Json, merge: bool)
    requires tree.Obj? && ContainersAbove(tree) && path != [] && TreeWrite(tree, path, value, merge).Ok?
    requires |path| == 1 && !merge ==> value.Null? || value.Obj?
    ensures ContainersAbove(TreeWrite(tree, path, value, merge).value) <==> !PlacesNoObject(path, value)
  {
    var next := Merged(Get(tree, path), value, merge).value;
    var tree' := Set(tree, path, next);
    if PlacesNoObject(path, value) {
      if |path| == 2 {
        ContainersBelow(tree, path, next, path);
        assert path[|path|..] == [];
      } else {
        var key :| key in value.fields && NoObject(value.fields[key]);
        PlacedMember(tree, path, value, merge, key);
        assert 0 < |path + [key]| < FullDepth(path + [key]);
      }
    } else {
      forall q | 0 < |q| < FullDepth(q)
        ensures Get(tree', q).Null? || Get(tree', q).Obj?
      {
        if !(path <= q) {
          ContainersElsewhere(tree, path, next, q);
        } else if q == path {
          ContainersBelow(tree, path, next, q);
          assert q[|path|..] == [];
        } else {
          assert q == path + [q[1]];
          PlacedMember(tree, path, value, merge, q[1]);
        }
      }
    }
  }

  /** One committed write: the table after it stands for the plain tree after it, exactly when the
    * write neither continues below a truthy primitive nor places anything but an object as a member of a
    * nested collection. */
  lemma {:induction false} WriteSimulates(tree: Json, rows: Rows, path: Path, value: Json, merge: bool)
    requires tree.Obj? && WellFormed(rows) && StandsFor(tree, rows)
    requires Write(rows, path, value, merge).Ok? && NamesMembers(path, value)
    ensures TreeWrite(tree, path, value, merge).Ok?
    ensures StandsFor(TreeWrite(tree, path, value, merge).value, Write(rows, path, value, merge).value)
       <==> !IntoPrimitive(rows, path) && !PlacesNoObject(path, value)
  {
    PlacingSplits(path, value);
    if |path| >= FullDepth(path) {
      WriteAtAnchorSimulates(tree, rows, path, value, merge);
    } else {
      WriteAboveAnchorSimulates(tree, rows, path, value, merge);
    }
    ContainersKept(tree, path, value, merge);
  }

  lemma {:induction false} TwoCharacters(text: string)
    requires |text| == 2
    ensures Entries(Text(text)) == map["0" := Text([text[0]]), "1" := Text([text[1]])]
  {
    assert Decimal(0) == "0" && Decimal(1) == "1";
    TextEntries(text, "0");
    TextEntries(text, "1");
    forall key | key in Entries(Text(text)) ensures key == "0" || key == "1" {
      TextEntries(text, key);
    }
  }

  lemma {:induction false} ExpandedPair(path: Path, a: Json, b: Json, anchor: Path)
    requires |path| == 2 && path[0] in NESTED && !a.Null? && !b.Null?
    ensures var rows := Expand(path, Obj(map["0" := a, "1" := b]));
            && (anchor in rows <==> anchor in [path + ["0"], path + ["1"]])
            && (anchor in rows ==> rows[anchor] == Row(if anchor == path + ["0"] then a else b, 1))
  {
    ExpandAnchor(path, Obj(map["0" := a, "1" := b]), anchor);
    if path <= anchor && |anchor| == 3 {
      assert anchor == path + [anchor[2]] && anchor[2..] == [anchor[2]];
    }
  }

  lemma {:induction false} ExpandPair(path: Path, a: Json, b: Json)
    requires |path| == 2 && path[0] in NESTED && !a.Null? && !b.Null?
    ensures Expand(path, Obj(map["0" := a, "1" := b])) == map[path + ["0"] := Row(a, 1), path + ["1"] := Row(b, 1)]
  {
    var rows := Expand(path, Obj(map["0" := a, "1" := b]));
    var pair := map[path + ["0"] := Row(a, 1), path + ["1"] := Row(b, 1)];
    assert (path + ["0"])[2] == "0" && (path + ["1"])[2] == "1";
    forall anchor
      ensures anchor in rows <==> anchor in pair
      ensures anchor in rows ==> rows[anchor] == pair[anchor]
    {
      ExpandedPair(path, a, b, anchor);
    }
  }

  /** The second failing family shown on an empty table: a text of two characters becomes two documents
    * that the plain tree does not have. */
  lemma {:induction false} TextMemberSplits(name: Key, key: Key, text: string)
    requires name in NESTED && SafePath([name, key]) && |text| == 2
    ensures var path := [name, key];
            && Write(map[], path, Text(text), false)
               == Ok(map[path + ["0"] := Row(Text([text[0]]), 1), path + ["1"] := Row(Text([text[1]]), 1)])
            && Get(Set(EMPTY, path, Text(text)), path + ["0"]).Null?
  {
    var path := [name, key];
    TwoCharacters(text);
    ExpandPair(path, Text([text[0]]), Text([text[1]]));
    var rows := Expand(path, Spread(path, Text(text)));
    assert Without(map[], path) + rows == rows;
    GetSetUnder(EMPTY, path, Text(text), path + ["0"]);
    assert (path + ["0"])[|path|..] == ["0"];
  }

  /** A number or boolean written there is not stored at all, and a plain tree has it. */
  lemma {:induction false} NumberMemberVanishes(tree: Json, name: Key, key: Key, text: string, truthy: bool)
    requires tree.Obj? && name in NESTED && SafePath([name, key])
    ensures var path := [name, key];
            && Write(map[], path, Atom(text, truthy), false) == Ok(map[])
            && Get(TreeWrite(tree, path, Atom(text, truthy), false).value, path) == Atom(text, truthy)
  {
    var path := [name, key];
    WrittenIsRead(tree, path, Atom(text, truthy));
    assert AnchorsUnder(path, Spread(path, Atom(text, truthy))) == {};
    assert Without(map[], path) + Expand(path, Spread(path, Atom(text, truthy))) == map[];
  }

  /** A write into a stored primitive keeps the document and only raises the row revision, or throws
    * when the path goes on through a missing member. */
  lemma {:induction false} PrimitiveKeepsDocument(rows: Rows, path: Path, value: Json)
    requires WellFormed(rows) && IntoPrimitive(rows, path) && SafePath(path) && JsonTree.Valid(value)
    ensures var anchor, tail := path[..FullDepth(path)], path[FullDepth(path)..];
            var row := rows[anchor];
            Write(rows, path, value, false) ==
              if ReachesLast(row.document, tail) then Ok(rows[anchor := Row(row.document, row.revision + 1)])
              else Err(NotAnObject)
  {
    assert Write(rows, path, value, false) == WriteAtAnchor(rows, path, value, false);
  }

  lemma {:induction false} WrittenIsRead(tree: Json, path: Path, value: Json)
    requires tree.Obj? && path != []
    ensures Get(Set(tree, path, value), path) == value
  {
    GetSetUnder(tree, path, value, path);
    assert path[|path|..] == [];
  }

  /** The first failing family shown on a stored number: the write commits, a plain tree gains the
    * value, the table keeps the old document and only raises its revision. */
  lemma {:induction false} PrimitiveDocumentDropsWrite(tree: Json, collection: Key, id: Key, field: Key, value: Json)
    requires tree.Obj? && collection !in NESTED && SafePath([collection, id, field]) && JsonTree.Valid(value)
    ensures var rows: Rows := map[[collection, id] := Row(Atom("7", true), 1)];
            var path := [collection, id, field];
            && WellFormed(rows)
            && Write(rows, path, value, false) == Ok(rows[[collection, id] := Row(Atom("7", true), 2)])
            && Get(TreeWrite(tree, path, value, false).value, path) == value
  {
    var rows: Rows := map[[collection, id] := Row(Atom("7", true), 1)];
    var path := [collection, id, field];
    assert path[..2] == [collection, id] && path[2..] == [field];
    PrimitiveKeepsDocument(rows, path, value);
    WrittenIsRead(tree, path, value);
  }

  datatype WriteCall = WriteCall(path: Path, value: Json, merge: bool)

  function RowsAfter(rows: Rows, w: WriteCall): (r: Rows)
    requires WellFormed(rows)
    ensures WellFormed(r)
  {
    WriteKeepsWellFormed(rows, w.path, w.value, w.merge);
    var r := Write(rows, w.path, w.value, w.merge);
    if r.Ok? then r.value else rows
  }

  /** The plain tree takes part in exactly the writes that the table commits. */
  function TreeAfter(tree: Json, rows: Rows, w: WriteCall): (r: Json)
    requires WellFormed(rows) && tree.Obj?
    ensures r.Obj?
  {
    if Write(rows, w.path, w.value, w.merge).Err? || w.path == [] then tree
    else
      var r := TreeWrite(tree, w.path, w.value, w.merge);
      if r.Ok? then r.value else tree
  }

  /** Every committed write of the run names its members, continues below no truthy primitive and places
    * only objects as members of nested collections. */
  predicate PlainRun(rows: Rows, calls: seq<WriteCall>)
    requires WellFormed(rows)
    decreases |calls|
  {
    calls == []
    || (&& (Write(rows, calls[0].path, calls[0].value, calls[0].merge).Ok? ==>
              && NamesMembers(calls[0].path, calls[0].value)
              && !IntoPrimitive(rows, calls[0].path) && !PlacesNoObject(calls[0].path, calls[0].value))
        && PlainRun(RowsAfter(rows, calls[0]), calls[1..]))
  }

  function RunRows(rows: Rows, calls: seq<WriteCall>): (r: Rows)
    requires WellFormed(rows)
    ensures WellFormed(r)
    decreases |calls|
  {
    if calls == [] then rows else RunRows(RowsAfter(rows, calls[0]), calls[1..])
  }

  function RunTree(tree: Json, rows: Rows, calls: seq<WriteCall>): (r: Json)
    requires WellFormed(rows) && tree.Obj?
    ensures r.Obj?
    decreases |calls|
  {
    if calls == [] then tree
    else RunTree(TreeAfter(tree, rows, calls[0]), RowsAfter(rows, calls[0]), calls[1..])
  }

  /** Over any run of writes, refused ones included, the table keeps standing for the plain tree. */
  lemma {:induction false} RunSimulates(tree: Json, rows: Rows, calls: seq<WriteCall>)
    requires tree.Obj? && WellFormed(rows) && StandsFor(tree, rows) && PlainRun(rows, calls)
    ensures StandsFor(RunTree(tree, rows, calls), RunRows(rows, calls))
    decreases |calls|
  {
    if calls != [] {
      var w := calls[0];
      if Write(rows, w.path, w.value, w.merge).Ok? {
        WriteSimulates(tree, rows, w.path, w.value, w.merge);
      }
      RunSimulates(TreeAfter(tree, rows, w), RowsAfter(rows, w), calls[1..]);
    }
  }

  // ---------- frame and read-back ----------

  lemma {:induction false} FrameInDocument(document: Json, tail: Path, next: Json, qTail: Path)
    requires tail != [] && !Comparable(tail, qTail) && SetDocument(document, tail, next).Ok?
    ensures Get(SetDocument(document, tail, next).value, qTail) == Get(document, qTail)
  {
    GetSetOther(ObjectOr(document), tail, next, qTail);
    assert Get(ObjectOr(document), qTail) == Get(document, qTail);
  }

  lemma {:induction false} TailsIncomparable(anchor: Path, tail: Path, qTail: Path)
    requires !Comparable(anchor + tail, anchor + qTail)
    ensures !Comparable(tail, qTail)
  {
  }

  lemma {:induction false} FrameSameAnchor(rows: Rows, path: Path, value: Json, merge: bool, qTail: Path)
    requires path != [] && |path| >= FullDepth(path) && WriteAtAnchor(rows, path, value, merge).Ok?
    requires !Comparable(path, path[..FullDepth(path)] + qTail)
    ensures var anchor := path[..FullDepth(path)];
            var rows' := WriteAtAnchor(rows, path, value, merge).value;
            Get(Lookup(rows', anchor), qTail) == Get(Lookup(rows, anchor), qTail)
  {
    var anchor, tail := path[..FullDepth(path)], path[FullDepth(path)..];
    assert path == anchor + tail;
    TailsIncomparable(anchor, tail, qTail);
    var document := Lookup(rows, anchor);
    FrameInDocument(document, tail, Merged(Get(document, tail), value, merge).value, qTail);
  }

  lemma {:induction false} FrameAtAnchor(rows: Rows, path: Path, value: Json, merge: bool, anchor: Path, qTail: Path)
    requires WellFormed(rows) && Write(rows, path, value, merge).Ok? && !Comparable(path, anchor + qTail)
    requires Anchored(anchor)
    ensures Get(Lookup(Write(rows, path, value, merge).value, anchor), qTail) == Get(Lookup(rows, anchor), qTail)
  {
    if |path| >= FullDepth(path) && path[..FullDepth(path)] == anchor {
      FrameSameAnchor(rows, path, value, merge, qTail);
    } else {
      NotUnder(path, anchor, qTail);
      RowsOutside(rows, path, value, merge, anchor);
    }
  }

  lemma {:induction false} NotUnder(path: Path, anchor: Path, qTail: Path)
    requires !Comparable(path, anchor + qTail)
    ensures !(path <= anchor)
  {
  }

  lemma {:induction false} FrameAboveAnchor(rows: Rows, path: Path, value: Json, merge: bool, q: Path)
    requires WellFormed(rows) && Write(rows, path, value, merge).Ok? && !Comparable(path, q)
    requires WellFormed(Write(rows, path, value, merge).value)
    ensures Node(Write(rows, path, value, merge).value, q) == Node(rows, q)
  {
    var rows' := Write(rows, path, value, merge).value;
    forall r | q <= r
      ensures (r in rows' <==> r in rows) && (r in rows ==> rows'[r] == rows[r])
    {
      if |path| >= FullDepth(path) {
        assert path[..FullDepth(path)] <= path;
      }
      RowsOutside(rows, path, value, merge, r);
    }
    NodeLocal(rows, rows', q);
  }

  /** A committed write leaves every path that is neither above nor below it reading as before. */
  lemma {:induction false} WriteFrame(rows: Rows, path: Path, value: Json, merge: bool, q: Path)
    requires WellFormed(rows) && Write(rows, path, value, merge).Ok? && !Comparable(path, q)
    ensures WellFormed(Write(rows, path, value, merge).value)
    ensures Get(Tree(Write(rows, path, value, merge).value), q) == Get(Tree(rows), q)
  {
    var rows' := Write(rows, path, value, merge).value;
    WriteKeepsWellFormed(rows, path, value, merge);
    GetTree(rows, q);
    GetTree(rows', q);
    if |q| >= FullDepth(q) {
      assert q == q[..FullDepth(q)] + q[FullDepth(q)..];
      FrameAtAnchor(rows, path, value, merge, q[..FullDepth(q)], q[FullDepth(q)..]);
    } else {
      FrameAboveAnchor(rows, path, value, merge, q);
    }
  }

  lemma {:induction false} RowsOutside(rows: Rows, path: Path, value: Json, merge: bool, r: Path)
    requires WellFormed(rows) && Write(rows, path, value, merge).Ok?
    requires if |path| >= FullDepth(path) then path[..FullDepth(path)] != r else !(path <= r)
    ensures var rows' := Write(rows, path, value, merge).value;
            (r in rows' <==> r in rows) && (r in rows ==> rows'[r] == rows[r])
  {
    if |path| < FullDepth(path) {
      var next := Merged(Get(Tree(rows), path), value, merge).value;
      if !next.Null? {
        ExpandAnchor(path, Spread(path, next), r);
      }
    }
  }

  /** A committed plain write at or below an anchor is read back exactly. */
  lemma {:induction false} WriteReadBack(rows: Rows, path: Path, value: Json)
    requires WellFormed(rows) && Write(rows, path, value, false).Ok?
    requires |path| >= FullDepth(path) && !IntoPrimitive(rows, path)
    ensures WellFormed(Write(rows, path, value, false).value)
    ensures Get(Tree(Write(rows, path, value, false).value), path) == value
  {
    var rows' := Write(rows, path, value, false).value;
    WriteKeepsWellFormed(rows, path, value, false);
    TreeHoldsItsRows(rows);
    WriteAtAnchorSimulates(Tree(rows), rows, path, value, false);
    ReadSimulates(Set(Tree(rows), path, value), rows', path);
    GetSetUnder(Tree(rows), path, value, path);
    assert path[|path|..] == [];
  }

  // ---------- merges ----------

  /** Below the place it is applied to, a patch gives what it names and leaves the rest. */
  lemma {:induction false} PatchReads(current: Json, payload: Json, rest: Path)
    requires rest != [] && Patch(current, payload).Ok?
    ensures Get(Patch(current, payload).value, rest) ==
              if rest[0] in payload.fields then Get(payload, rest) else Get(current, rest)
  {
  }

  /** A committed merge, at, below or above the anchors: every path below it whose first key the payload
    * names reads what the payload has there, null deleting, and every other one reads as before. */
  lemma {:induction false} MergeReads(rows: Rows, path: Path, value: Json, rest: Path)
    requires WellFormed(rows) && Write(rows, path, value, true).Ok? && NamesMembers(path, value)
    requires !IntoPrimitive(rows, path) && !PlacesNoObject(path, value)
    requires rest != [] && |path + rest| >= FullDepth(path + rest)
    ensures value.Obj? && WellFormed(Write(rows, path, value, true).value)
    ensures Get(Tree(Write(rows, path, value, true).value), path + rest) ==
              if rest[0] in value.fields then Get(value, rest) else Get(Tree(rows), path + rest)
  {
    var rows' := Write(rows, path, value, true).value;
    var tree' := TreeWrite(Tree(rows), path, value, true).value;
    var current := Get(Tree(rows), path);
    WriteKeepsWellFormed(rows, path, value, true);
    TreeHoldsItsRows(rows);
    WriteSimulates(Tree(rows), rows, path, value, true);
    ReadSimulates(tree', rows', path + rest);
    GetSetUnder(Tree(rows), path, Patch(current, value).value, path + rest);
    assert (path + rest)[|path|..] == rest;
    PatchReads(current, value, rest);
    GetConcat(Tree(rows), path, rest);
  }

  /** Containers above the anchors that the payload does not name read as before as well. */
  lemma {:induction false} MergeKeepsContainers(rows: Rows, path: Path, value: Json, key: Key)
    requires WellFormed(rows) && Write(rows, path, value, true).Ok? && NamesMembers(path, value)
    requires !PlacesNoObject(path, value)
    requires |path + [key]| < FullDepth(path + [key]) && path != [] && value.Obj? && key !in value.fields
    ensures WellFormed(Write(rows, path, value, true).value)
    ensures Get(Tree(Write(rows, path, value, true).value), path + [key]) == Get(Tree(rows), path + [key])
  {
    var rows', q := Write(rows, path, value, true).value, path + [key];
    WriteKeepsWellFormed(rows, path, value, true);
    forall a | q <= a
      ensures (a in rows <==> a in rows') && (a in rows ==> rows[a].document == rows'[a].document)
    {
      if Anchored(a) {
        MergeKeepsRow(rows, path, value, key, a);
      }
    }
    NodeLocal(rows, rows', q);
    GetTree(rows, q);
    GetTree(rows', q);
  }

  lemma {:induction false} MergeKeepsRow(rows: Rows, path: Path, value: Json, key: Key, a: Path)
    requires WellFormed(rows) && Write(rows, path, value, true).Ok? && NamesMembers(path, value)
    requires !PlacesNoObject(path, value)
    requires |path + [key]| < FullDepth(path + [key]) && path != [] && value.Obj? && key !in value.fields
    requires path + [key] <= a && Anchored(a)
    ensures Lookup(Write(rows, path, value, true).value, a) == Lookup(rows, a)
  {
    var rest := a[|path|..];
    assert path + rest == a && rest[0] == key;
    MergeReads(rows, path, value, rest);
    AnchorReads(rows, a);
    AnchorReads(Write(rows, path, value, true).value, a);
  }

  lemma {:induction false} AnchorReads(rows: Rows, a: Path)
    requires WellFormed(rows) && Anchored(a)
    ensures Get(Tree(rows), a) == Lookup(rows, a)
  {
    TreeHoldsItsRows(rows);
  }

  // ---------- what is accepted ----------

  lemma {:induction false} CommitsAtAnchor(rows: Rows, path: Path, value: Json, merge: bool)
    requires path != [] && |path| >= FullDepth(path)
    ensures WriteAtAnchor(rows, path, value, merge).Ok? <==>
              && (merge ==> value.Obj? && "" !in value.fields)
              && (IntoPrimitive(rows, path) ==>
                    ReachesLast(Lookup(rows, path[..FullDepth(path)]), path[FullDepth(path)..]))
  {
  }

  lemma {:induction false} CommitsAbove(rows: Rows, path: Path, value: Json, merge: bool)
    requires WellFormed(rows) && 0 < |path| < FullDepth(path)
    ensures WriteAboveAnchor(rows, path, value, merge).Ok? <==>
              && (merge ==> value.Obj? && "" !in value.fields)
              && (|path| == 1 && !merge ==> value.Null? || value.Obj?)
  {
  }

  /** Exactly when a write commits. */
  lemma {:induction false} WriteCommitsExactly(rows: Rows, path: Path, value: Json, merge: bool)
    requires WellFormed(rows)
    ensures Write(rows, path, value, merge).Ok? <==>
              && WithinLimits(value, 40)
              && path != [] && (forall i | 0 <= i < |path| :: path[i] != "" && Clean(path[i]))
              && (merge ==> value.Obj? && "" !in value.fields)
              && (|path| == 1 && !merge ==> value.Null? || value.Obj?)
              && (IntoPrimitive(rows, path) ==>
                    ReachesLast(Lookup(rows, path[..FullDepth(path)]), path[FullDepth(path)..]))
  {
    ValidExactly(value, 0);
    forall i | 0 <= i < |path| ensures SafeKey(path[i]) <==> Clean(path[i]) {
      SafeKeyExactly(path[i]);
    }
    assert SafePath(path) <==> forall i | 0 <= i < |path| :: path[i] != "" && Clean(path[i]);
    if path != [] && |path| >= FullDepth(path) {
      CommitsAtAnchor(rows, path, value, merge);
    } else if path != [] {
      CommitsAbove(rows, path, value, merge);
    }
  }

  /** A primitive is a number or boolean other than zero and false, or a text that is not empty. */
  lemma {:induction false} PrimitiveExactly(document: Json)
    ensures Primitive(document) <==>
              (document.Atom? && document.truthy) || (document.Text? && document.text != "")
  {
  }

  /** From a character on, the walk can stay at it by the index 0 and end at its length. */
  predicate StaysAtCharacter(tail: Path) {
    forall i | 0 <= i < |tail| - 1 :: tail[i] == "0" || (tail[i] == "length" && i == |tail| - 2)
  }

  lemma {:induction false} CharacterReaches(c: char, tail: Path)
    requires tail != []
    ensures ReachesLast(Text([c]), tail) <==> StaysAtCharacter(tail)
    decreases |tail|
  {
    if |tail| > 1 {
      TextEntries([c], tail[0]);
      assert [[c][0]] == [c] && Decimal(0) == "0";
      if tail[0] == "0" {
        CharacterReaches(c, tail[1..]);
        assert forall i | 0 < i < |tail| - 1 :: tail[i] == tail[1..][i - 1];
      }
    }
  }

  /** When exactly assigning below a stored primitive is silently ignored instead of throwing: right
    * below it, or below a character or the length of a text. */
  lemma {:induction false} ReachesExactly(document: Json, tail: Path)
    requires Primitive(document) && tail != []
    ensures ReachesLast(document, tail) <==>
              || |tail| == 1
              || (document.Text? && tail[0] == "length" && |tail| == 2)
              || (document.Text? && (exists i | 0 <= i < |document.text| :: tail[0] == Decimal(i))
                  && StaysAtCharacter(tail[1..]))
  {
    if |tail| > 1 && document.Text? {
      TextEntries(document.text, tail[0]);
      LengthIsNoIndex();
      if exists i | 0 <= i < |document.text| :: tail[0] == Decimal(i) {
        var i :| 0 <= i < |document.text| && tail[0] == Decimal(i);
        CharacterReaches(document.text[i], tail[1..]);
      }
    }
  }

  lemma {:induction false} LengthIsNoIndex()
    ensures forall i: nat :: Decimal(i) != "length"
  {
    forall i: nat ensures Decimal(i) != "length" {
      LastIsDigit(i);
    }
  }

  lemma {:induction false} LastIsDigit(n: nat)
    ensures '0' <= Decimal(n)[|Decimal(n)| - 1] <= '9'
  {
  }
}
