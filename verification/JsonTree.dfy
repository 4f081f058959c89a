/** JSON tree semantics: `get`, `set` and `patch` over plain values (backend/src/db/jsonTree.js).
  * A path is the sequence of its keys. An `Atom` is a number or a boolean; `truthy` records how
  * JavaScript reads it as a condition. */
module JsonTree {
  import opened Decimals
  import opened Wrappers

  type Key = string
  type Path = seq<Key>

  datatype Json =
    | Null
    | Atom(text: string, truthy: bool)
    | Text(text: string)
    | List(items: seq<Json>)
    | Obj(fields: map<Key, Json>)

  const EMPTY := Obj(map[])

  datatype TreeError =
    | InvalidDataPath
    | InvalidJson
    | InvalidPatch
    | InvalidCollection
    | NotAnObject // a property write through a missing member of a primitive: JavaScript's TypeError

  const RESERVED_KEYS: set<Key> := {"__proto__", "prototype", "constructor"}
  const MAX_DEPTH := 40

  predicate UnsafeChar(c: char) {
    c in ".#$[]\\" || c < ' '
  }

  predicate SafeKey(key: Key) {
    key !in RESERVED_KEYS && forall c | c in key :: !UnsafeChar(c)
  }

  predicate SafePath(path: Path) {
    forall key | key in path :: key != "" && SafeKey(key)
  }

  predicate Truthy(value: Json) {
    match value
    case Null => false
    case Atom(_, truthy) => truthy
    case Text(text) => text != ""
    case _ => true
  }

  /** The values of a list under their indices. */
  function Indexed(items: seq<Json>): map<Key, Json> {
    if items == [] then map[]
    else Indexed(items[..|items| - 1])[Decimal(|items| - 1) := items[|items| - 1]]
  }

  /** `Object.entries(value || {})`: a text is taken apart into its characters. */
  function Entries(value: Json): map<Key, Json> {
    match value
    case Obj(fields) => fields
    case List(items) => Indexed(items)
    case Text(text) => Indexed(seq(|text|, i requires 0 <= i < |text| => Text([text[i]])))
    case _ => map[]
  }

  lemma {:induction false} IndexedAt(items: seq<Json>, i: nat)
    requires i < |items|
    ensures Decimal(i) in Indexed(items) && Indexed(items)[Decimal(i)] == items[i]
    decreases |items|
  {
    if i < |items| - 1 {
      IndexedAt(items[..|items| - 1], i);
      DecimalsDiffer(i, |items| - 1);
    }
  }

  lemma {:induction false} IndexedOnly(items: seq<Json>, key: Key)
    requires key in Indexed(items)
    ensures exists i | 0 <= i < |items| :: key == Decimal(i)
    decreases |items|
  {
    if key != Decimal(|items| - 1) {
      IndexedOnly(items[..|items| - 1], key);
      var i :| 0 <= i < |items| - 1 && key == Decimal(i);
      assert 0 <= i < |items|;
    }
  }

  /** The entries of a text are its characters, one under each index. */
  lemma {:induction false} TextEntries(text: string, key: Key)
    ensures key in Entries(Text(text)) <==> exists i | 0 <= i < |text| :: key == Decimal(i)
    ensures forall i | 0 <= i < |text| :: key == Decimal(i) ==>
              key in Entries(Text(text)) && Entries(Text(text))[key] == Text([text[i]])
  {
    var characters := seq(|text|, i requires 0 <= i < |text| => Text([text[i]]));
    if key in Entries(Text(text)) {
      IndexedOnly(characters, key);
    }
    forall i | 0 <= i < |text| && key == Decimal(i)
      ensures key in Entries(Text(text)) && Entries(Text(text))[key] == Text([text[i]])
    {
      IndexedAt(characters, i);
    }
  }

  /** The recursive check every written value passes. */
  predicate Valid(value: Json, depth: nat := 0)
    decreases value
  {
    && depth <= MAX_DEPTH
    && (value.List? ==> forall i | 0 <= i < |value.items| :: Valid(value.items[i], depth + 1))
    && (value.Obj? ==>
          forall key | key in value.fields :: SafeKey(key) && '/' !in key && Valid(value.fields[key], depth + 1))
  }

  /** The members of an object and the items of a list, under their keys. */
  function Members(value: Json): map<Key, Json> {
    match value
    case Obj(fields) => fields
    case List(items) => Indexed(items)
    case _ => map[]
  }

  /** The value has something at this path inside it. */
  predicate Contains(value: Json, path: Path)
    decreases |path|
  {
    path == [] || (path[0] in Members(value) && Contains(Members(value)[path[0]], path[1..]))
  }

  /** No key that the path checks refuse: no reserved word, no control character, none of seven others. */
  predicate Clean(key: Key) {
    && key != "__proto__" && key != "prototype" && key != "constructor"
    && (forall i | 0 <= i < |key| :: key[i] as int >= 32)
    && '.' !in key && '#' !in key && '$' !in key && '[' !in key && ']' !in key && '\\' !in key
  }

  lemma {:induction false} SafeKeyExactly(key: Key)
    ensures SafeKey(key) <==> Clean(key)
  {
    forall i | 0 <= i < |key|
      ensures UnsafeChar(key[i]) <==> key[i] in ['.', '#', '$', '[', ']', '\\'] || (key[i] as int) < 32
    {
    }
    if SafeKey(key) {
      forall i | 0 <= i < |key| ensures !UnsafeChar(key[i]) {
        assert key[i] in key;
      }
    }
  }

  predicate Digits(s: string) {
    forall i | 0 <= i < |s| :: '0' <= s[i] <= '9'
  }

  lemma {:induction false} DecimalDigits(n: nat)
    ensures Digits(Decimal(n))
    decreases n
  {
    if n >= 10 {
      DecimalDigits(n / 10);
    }
  }

  lemma {:induction false} DigitsAreClean(s: string)
    requires s != "" && Digits(s)
    ensures Clean(s) && '/' !in s
  {
    assert "__proto__"[0] == '_' && "prototype"[0] == 'p' && "constructor"[0] == 'c';
    assert '0' <= s[0] <= '9';
  }

  /** Every path inside the value is at most `room` keys long and has clean keys without a slash. */
  ghost predicate WithinLimits(value: Json, room: int) {
    forall path | Contains(value, path) ::
      |path| <= room && forall i | 0 <= i < |path| :: Clean(path[i]) && '/' !in path[i]
  }

  lemma {:induction false} LimitsOfMember(value: Json, room: int, key: Key)
    requires WithinLimits(value, room) && key in Members(value)
    ensures WithinLimits(Members(value)[key], room - 1) && Clean(key) && '/' !in key
  {
    var member := Members(value)[key];
    assert Contains(member, []) && [key][1..] == [];
    assert Contains(value, [key]);
    assert [key][0] == key;
    forall path | Contains(member, path)
      ensures |path| <= room - 1 && forall i | 0 <= i < |path| :: Clean(path[i]) && '/' !in path[i]
    {
      var longer := [key] + path;
      assert longer[1..] == path && Contains(value, longer);
      forall i | 0 <= i < |path| ensures Clean(path[i]) && '/' !in path[i] {
        assert longer[i + 1] == path[i];
      }
    }
  }

  lemma {:induction false} LimitsFromMembers(value: Json, room: int)
    requires room >= 0
    requires forall key | key in Members(value) ::
               WithinLimits(Members(value)[key], room - 1) && Clean(key) && '/' !in key
    ensures WithinLimits(value, room)
  {
    forall path | Contains(value, path)
      ensures |path| <= room && forall i | 0 <= i < |path| :: Clean(path[i]) && '/' !in path[i]
    {
      if path != [] {
        var member, rest := Members(value)[path[0]], path[1..];
        assert Contains(member, rest);
        forall i | 0 <= i < |path| ensures Clean(path[i]) && '/' !in path[i] {
          if i > 0 {
            assert rest[i - 1] == path[i];
          }
        }
      }
    }
  }

  lemma {:induction false} ListMembers(items: seq<Json>, key: Key)
    requires key in Indexed(items)
    ensures Clean(key) && '/' !in key && exists i | 0 <= i < |items| :: Indexed(items)[key] == items[i]
  {
    IndexedOnly(items, key);
    var i :| 0 <= i < |items| && key == Decimal(i);
    IndexedAt(items, i);
    DecimalDigits(i);
    DigitsAreClean(key);
  }

  /** The recursive check, down to the last branch: nothing inside the value is more than forty keys
    * deep or under a key that is refused. */
  lemma {:induction false} ValidExactly(value: Json, depth: nat)
    ensures Valid(value, depth) <==> WithinLimits(value, 40 - depth)
    decreases value
  {
    assert Contains(value, []);
    if depth <= MAX_DEPTH {
      match value {
        case Obj(fields) => ValidObject(value, depth);
        case List(items) => ValidList(value, depth);
        case _ => LimitsFromMembers(value, 40 - depth);
      }
    }
  }

  lemma {:induction false} ValidObject(value: Json, depth: nat)
    requires value.Obj? && depth <= MAX_DEPTH
    ensures Valid(value, depth) <==> WithinLimits(value, 40 - depth)
    decreases value, 0
  {
    forall key | key in value.fields
      ensures Valid(value.fields[key], depth + 1) <==> WithinLimits(value.fields[key], 39 - depth)
      ensures SafeKey(key) <==> Clean(key)
    {
      ValidExactly(value.fields[key], depth + 1);
      SafeKeyExactly(key);
    }
    if Valid(value, depth) {
      LimitsFromMembers(value, 40 - depth);
    }
    if WithinLimits(value, 40 - depth) {
      forall key | key in value.fields
        ensures WithinLimits(value.fields[key], 39 - depth) && Clean(key) && '/' !in key
      {
        LimitsOfMember(value, 40 - depth, key);
      }
    }
  }

  lemma {:induction false} ValidList(value: Json, depth: nat)
    requires value.List? && depth <= MAX_DEPTH
    ensures Valid(value, depth) <==> WithinLimits(value, 40 - depth)
    decreases value, 0
  {
    forall i | 0 <= i < |value.items|
      ensures Valid(value.items[i], depth + 1) <==> WithinLimits(value.items[i], 39 - depth)
    {
      ValidExactly(value.items[i], depth + 1);
    }
    if Valid(value, depth) {
      forall key | key in Members(value)
        ensures WithinLimits(Members(value)[key], 39 - depth) && Clean(key) && '/' !in key
      {
        ListMembers(value.items, key);
      }
      LimitsFromMembers(value, 40 - depth);
    }
    if WithinLimits(value, 40 - depth) {
      forall i | 0 <= i < |value.items| ensures WithinLimits(value.items[i], 39 - depth) {
        IndexedAt(value.items, i);
        LimitsOfMember(value, 40 - depth, Decimal(i));
      }
    }
  }

  /** What is stored at a path; null when any step is missing or not an object. */
  function Get(tree: Json, path: Path): Json
    decreases |path|
  {
    if path == [] then tree
    else if tree.Obj? && path[0] in tree.fields then Get(tree.fields[path[0]], path[1..])
    else Null
  }

  /** The source walks down with one reassigned variable. */
  method GetLoop(tree: Json, path: Path) returns (value: Json)
    ensures value == Get(tree, path)
  {
    value := tree;
    var i := 0;
    while i < |path|
      invariant 0 <= i <= |path|
      invariant Get(tree, path) == Get(value, path[i..])
    {
      if !value.Obj? || path[i] !in value.fields {
        return Null;
      }
      value := value.fields[path[i]];
      i := i + 1;
    }
  }

  function ObjectOr(value: Json): (r: Json)
    ensures r.Obj?
  {
    if value.Obj? then value else EMPTY
  }

  /** Replaces the value at a path. Missing or non-object steps become empty objects; null deletes. */
  function Set(tree: Json, path: Path, value: Json): (r: Json)
    requires tree.Obj? && path != []
    ensures r.Obj?
    decreases |path|
  {
    var key := path[0];
    if |path| == 1 then
      Obj(if value.Null? then tree.fields - {key} else tree.fields[key := value])
    else
      Obj(tree.fields[key := Set(ObjectOr(Get(tree, [key])), path[1..], value)])
  }

  function Overlay(base: map<Key, Json>, payload: map<Key, Json>): map<Key, Json> {
    map key | key in base.Keys + payload.Keys && (key in payload ==> !payload[key].Null?)
      :: if key in payload then payload[key] else base[key]
  }

  /** Field-by-field update of one object; a null field deletes. The empty field name is no path. */
  function Patch(current: Json, payload: Json): Result<Json, TreeError> {
    if !payload.Obj? then Err(InvalidPatch)
    else if "" in payload.fields then Err(InvalidDataPath)
    else Ok(Obj(Overlay(ObjectOr(current).fields, payload.fields)))
  }

  lemma {:induction false} OverlayStep(base: map<Key, Json>, done: map<Key, Json>, key: Key, value: Json)
    requires key !in done
    ensures Overlay(base, done[key := value])
         == if value.Null? then Overlay(base, done) - {key} else Overlay(base, done)[key := value]
  {
  }

  /** The source applies `set` once per field; the outcome does not depend on the order. */
  method PatchLoop(current: Json, payload: Json) returns (r: Result<Json, TreeError>)
    ensures r == Patch(current, payload)
  {
    if !payload.Obj? {
      return Err(InvalidPatch);
    }
    var base := ObjectOr(current);
    var result := base;
    var rest := payload.fields.Keys;
    ghost var done: map<Key, Json> := map[];
    assert Overlay(base.fields, done) == base.fields;
    while rest != {}
      invariant rest <= payload.fields.Keys
      invariant done.Keys == payload.fields.Keys - rest && forall key | key in done :: done[key] == payload.fields[key]
      invariant "" !in done && result == Obj(Overlay(base.fields, done))
      decreases rest
    {
      var key :| key in rest;
      if key == "" {
        return Err(InvalidDataPath);
      }
      OverlayStep(base.fields, done, key, payload.fields[key]);
      result := Set(result, [key], payload.fields[key]);
      rest, done := rest - {key}, done[key := payload.fields[key]];
    }
    assert done == payload.fields;
    r := Ok(result);
  }

  predicate Comparable(p: Path, q: Path) {
    p <= q || q <= p
  }

  /** Writing null leaves the container of the path without the last key. */
  lemma {:induction false} SetNullDeletes(tree: Json, path: Path)
    requires tree.Obj? && path != []
    ensures var container := Get(Set(tree, path, Null), path[..|path| - 1]);
            container.Obj? && path[|path| - 1] !in container.fields
    decreases |path|
  {
    if |path| == 1 {
      assert path[..0] == [];
    } else {
      var child := ObjectOr(Get(tree, [path[0]]));
      SetNullDeletes(child, path[1..]);
      assert path[..|path| - 1] == [path[0]] + path[1..][..|path| - 2];
    }
  }

  /** A patched object has the fields that the payload gives a value and those it does not name. */
  lemma {:induction false} PatchFields(current: Json, payload: Json, key: Key)
    requires Patch(current, payload).Ok?
    ensures var patched := Patch(current, payload).value;
            patched.Obj? && (key in patched.fields <==>
                               if key in payload.fields then payload.fields[key] != Null
                               else current.Obj? && key in current.fields)
  {
  }

  /** Reading at or under the written path sees the written value. */
  lemma {:induction false} GetSetUnder(tree: Json, path: Path, value: Json, q: Path)
    requires tree.Obj? && path != [] && path <= q
    ensures Get(Set(tree, path, value), q) == Get(value, q[|path|..])
    decreases |path|
  {
    if |path| > 1 {
      GetSetUnder(ObjectOr(Get(tree, [path[0]])), path[1..], value, q[1..]);
      assert q[1..][|path[1..]|..] == q[|path|..];
    } else {
      assert q[1..] == q[|path|..];
    }
  }

  /** Reading above the written path sees the old container with the rest of the write applied. */
  lemma {:induction false} GetSetAbove(tree: Json, path: Path, value: Json, q: Path)
    requires tree.Obj? && q <= path && q != path
    ensures Get(Set(tree, path, value), q) == Set(ObjectOr(Get(tree, q)), path[|q|..], value)
    decreases |path|
  {
    if q == [] {
      assert path[|q|..] == path;
    } else {
      var child := ObjectOr(Get(tree, [path[0]]));
      GetSetAbove(child, path[1..], value, q[1..]);
      assert path[1..][|q[1..]|..] == path[|q|..];
      GetStep(tree, q);
    }
  }

  lemma {:induction false} GetStep(tree: Json, q: Path)
    requires tree.Obj? && q != []
    ensures ObjectOr(Get(ObjectOr(Get(tree, [q[0]])), q[1..])) == ObjectOr(Get(tree, q))
  {
    if q[0] in tree.fields {
      assert Get(tree, [q[0]]) == tree.fields[q[0]];
    }
  }

  /** A path that is neither above nor below the written one reads as before. */
  lemma {:induction false} GetSetOther(tree: Json, path: Path, value: Json, q: Path)
    requires tree.Obj? && path != [] && !Comparable(path, q)
    ensures Get(Set(tree, path, value), q) == Get(tree, q)
    decreases |path|
  {
    if path[0] == q[0] {
      var child := ObjectOr(Get(tree, [path[0]]));
      assert !Comparable(path[1..], q[1..]) by {
        assert path == [path[0]] + path[1..] && q == [q[0]] + q[1..];
      }
      GetSetOther(child, path[1..], value, q[1..]);
      if q[0] in tree.fields {
        assert Get(tree, [q[0]]) == tree.fields[q[0]];
      }
    }
  }

  lemma {:induction false} GetConcat(tree: Json, p: Path, q: Path)
    ensures Get(tree, p + q) == Get(Get(tree, p), q)
    decreases |p|
  {
    if p == [] {
      assert p + q == q;
    } else {
      assert (p + q)[1..] == p[1..] + q;
      if tree.Obj? && p[0] in tree.fields {
        GetConcat(tree.fields[p[0]], p[1..], q);
      }
    }
  }

  lemma {:induction false} GetTwo(tree: Json, first: Key, second: Key)
    ensures Get(tree, [first]) == if tree.Obj? && first in tree.fields then tree.fields[first] else Null
    ensures Get(tree, [first, second]) == Get(Get(tree, [first]), [second])
  {
    assert [first, second] == [first] + [second];
    GetConcat(tree, [first], [second]);
  }
}
