/** The capture extension's flat view of a nested record: `flattenObject` turns a record
    into a one-level mapping whose keys are paths joined by `"->>"`, with array elements
    named by their index, and `unflattenObject` rebuilds a nested record from such a
    mapping. */
module FlatKeys {
  import opened Wrappers
  import opened Text
  import opened Json

  /** `FLATTEN_SEPARATOR`. */
  const SEP: string := "->>"

  // ---------------------------------------------------------------------------------
  // flattenObject
  // ---------------------------------------------------------------------------------

  /** The key of an entry `key` below `parent`: an empty parent key is false in
      JavaScript and adds no prefix. */
  function ChildKey(parent: string, key: string): string {
    if parent != "" then parent + SEP + key else key
  }

  /** `flattenObject(obj, parent, result)`: the own enumerable entries of `obj`, which
      are the fields of an object, the indices of an array and the characters of a
      string, each handled as one entry. */
  function FlattenObj(result: Dict, obj: Json, parent: string): Dict
    decreases obj, 1
  {
    match obj
    case JObj(fs) => FlattenFields(result, fs, parent)
    case JArr(items) => FlattenIndexed(result, items, 0, parent)
    case JStr(s) => FlattenChars(result, s, 0, parent)
    case _ => result
  }

  function FlattenFields(result: Dict, fs: Dict, parent: string): Dict
    decreases fs, 0
  {
    if fs == [] then result
    else FlattenFields(FlattenEntry(result, fs[0].key, fs[0].val, parent), fs[1..], parent)
  }

  function FlattenIndexed(result: Dict, items: seq<Json>, i: nat, parent: string): Dict
    requires i <= |items|
    decreases items, |items| - i
  {
    if i == |items| then result
    else FlattenIndexed(FlattenEntry(result, NatToString(i), items[i], parent), items, i + 1, parent)
  }

  function FlattenChars(result: Dict, s: string, i: nat, parent: string): Dict
    requires i <= |s|
    decreases |s| - i
  {
    if i == |s| then result
    else FlattenChars(Set(result, ChildKey(parent, NatToString(i)), JStr([s[i]])), s, i + 1, parent)
  }

  /** The loop body for one entry: a plain object recurses under the new key, an array is
      walked element by element, anything else (null included) is stored as it is. */
  function FlattenEntry(result: Dict, key: string, value: Json, parent: string): Dict
    decreases value, 2
  {
    var newKey := ChildKey(parent, key);
    match value
    case JObj(_) => FlattenObj(result, value, newKey)
    case JArr(items) => FlattenEach(result, items, 0, newKey)
    case _ => Set(result, newKey, value)
  }

  /** `value.forEach((item, index) => …)`: an element that is an object or an array
      recurses under `key->>index`; any other element is stored there. */
  function FlattenEach(result: Dict, items: seq<Json>, i: nat, key: string): Dict
    requires i <= |items|
    decreases items, |items| - i
  {
    if i == |items| then result
    else
      FlattenEach(FlattenItem(result, items[i], key + SEP + NatToString(i)), items, i + 1, key)
  }

  /** The `forEach` body for one element. */
  function FlattenItem(result: Dict, item: Json, itemKey: string): Dict
    decreases item, 2
  {
    if IsScalar(item) then Set(result, itemKey, item) else FlattenObj(result, item, itemKey)
  }

  /** `flattenObject(obj)` with its default arguments, on an object whose walk does not
      throw (see `Shadowed`). */
  function Flatten(obj: Json): Dict {
    FlattenObj([], obj, "")
  }

  /** The name of the method that the guard `obj.hasOwnProperty(key)` calls. */
  const GUARD: string := "hasOwnProperty"

  /** `fs` has an own entry named `k`. */
  predicate HasOwn(fs: Dict, k: string) {
    exists i :: 0 <= i < |fs| && fs[i].key == k
  }

  /** The walk of `flattenObject` reaches an object with an own entry `hasOwnProperty`.
      `JSON.parse` stores such an entry as data, which hides the inherited method, so the
      guard's call throws `TypeError` at that object's first key. Arrays and strings
      cannot have such an entry; the walk enters every object and array below. */
  predicate Shadowed(v: Json)
    decreases v
  {
    match v
    case JObj(fs) => HasOwn(fs, GUARD) || exists i :: 0 <= i < |fs| && Shadowed(fs[i].val)
    case JArr(items) => exists i :: 0 <= i < |items| && Shadowed(items[i])
    case _ => false
  }

  /** The `result` object that the recursive calls of `flattenObject` share. */
  class Accumulator {
    var entries: Dict

    constructor ()
      ensures entries == []
    {
      entries := [];
    }

    /** `result[k] = v`. */
    method Put(k: string, v: Json)
      modifies this
      ensures entries == Set(old(entries), k, v)
    {
      entries := Set(entries, k, v);
    }
  }

  /** `flattenObject(obj, parentKey, result)` on the shared accumulator: one `for … in`
      loop over the object's own entries, taken by kind of object below. */
  method FlattenInto(obj: Json, parentKey: string, result: Accumulator) returns (thrown: bool)
    modifies result
    ensures thrown == Shadowed(obj)
    ensures !thrown ==> result.entries == FlattenObj(old(result.entries), obj, parentKey)
    decreases obj, 1
  {
    match obj
    case JObj(fs) => thrown := FieldsInto(fs, parentKey, result);
    case JArr(items) => thrown := IndexedInto(items, parentKey, result);
    case JStr(s) => CharsInto(s, parentKey, result); thrown := false;
    case _ => thrown := false;
  }

  /** The loop over the fields of an object; the guard throws at the first key when the
      object has an own `hasOwnProperty`. */
  method FieldsInto(fs: Dict, parentKey: string, result: Accumulator) returns (thrown: bool)
    modifies result
    ensures thrown == Shadowed(JObj(fs))
    ensures !thrown ==> result.entries == FlattenFields(old(result.entries), fs, parentKey)
    decreases fs, 0
  {
    for i := 0 to |fs|
      invariant i > 0 ==> !HasOwn(fs, GUARD)
      invariant forall j :: 0 <= j < i ==> !Shadowed(fs[j].val)
      invariant FlattenFields(result.entries, fs[i..], parentKey) == FlattenFields(old(result.entries), fs, parentKey)
    {
      if HasOwn(fs, GUARD) {
        return true;
      }
      assert fs[i..][1..] == fs[i + 1..];
      thrown := EntryInto(fs[i].key, fs[i].val, parentKey, result);
      if thrown {
        return;
      }
    }
    return false;
  }

  /** The loop over the indices of an array. */
  method IndexedInto(items: seq<Json>, parentKey: string, result: Accumulator) returns (thrown: bool)
    modifies result
    ensures thrown == Shadowed(JArr(items))
    ensures !thrown ==> result.entries == FlattenIndexed(old(result.entries), items, 0, parentKey)
    decreases items, 0
  {
    for i := 0 to |items|
      invariant !Shadowed(JArr(items[..i]))
      invariant FlattenIndexed(result.entries, items, i, parentKey) == FlattenIndexed(old(result.entries), items, 0, parentKey)
    {
      thrown := EntryInto(NatToString(i), items[i], parentKey, result);
      if thrown {
        ShadowedItem(items, i);
        return;
      }
      ShadowedPrefix(items, i);
    }
    assert items[..|items|] == items;
    return false;
  }

  /** The loop over the characters of a string. */
  method CharsInto(s: string, parentKey: string, result: Accumulator)
    modifies result
    ensures result.entries == FlattenChars(old(result.entries), s, 0, parentKey)
  {
    for i := 0 to |s|
      invariant FlattenChars(result.entries, s, i, parentKey) == FlattenChars(old(result.entries), s, 0, parentKey)
    {
      result.Put(ChildKey(parentKey, NatToString(i)), JStr([s[i]]));
    }
  }

  method EntryInto(key: string, value: Json, parentKey: string, result: Accumulator) returns (thrown: bool)
    modifies result
    ensures thrown == Shadowed(value)
    ensures !thrown ==> result.entries == FlattenEntry(old(result.entries), key, value, parentKey)
    decreases value, 2
  {
    var newKey := ChildKey(parentKey, key);
    match value
    case JObj(_) =>
      thrown := FlattenInto(value, newKey, result);
    case JArr(items) =>
      thrown := EachInto(items, newKey, result);
    case _ =>
      result.Put(newKey, value);
      thrown := false;
  }

  /** `value.forEach((item, index) => …)` for an array value stored under `newKey`. */
  method EachInto(items: seq<Json>, newKey: string, result: Accumulator) returns (thrown: bool)
    modifies result
    ensures thrown == Shadowed(JArr(items))
    ensures !thrown ==> result.entries == FlattenEach(old(result.entries), items, 0, newKey)
    decreases items, 1
  {
    for i := 0 to |items|
      invariant !Shadowed(JArr(items[..i]))
      invariant FlattenEach(result.entries, items, i, newKey) == FlattenEach(old(result.entries), items, 0, newKey)
    {
      var itemKey := newKey + SEP + NatToString(i);
      if IsScalar(items[i]) {
        result.Put(itemKey, items[i]);
      } else {
        thrown := FlattenInto(items[i], itemKey, result);
        if thrown {
          ShadowedItem(items, i);
          return;
        }
      }
      ShadowedPrefix(items, i);
    }
    assert items[..|items|] == items;
    return false;
  }

  /** An array whose element `i` throws throws. */
  lemma ShadowedItem(items: seq<Json>, i: nat)
    requires i < |items| && Shadowed(items[i])
    ensures Shadowed(JArr(items))
  {
  }

  /** The elements walked so far, one more of them. */
  lemma ShadowedPrefix(items: seq<Json>, i: nat)
    requires i < |items| && !Shadowed(JArr(items[..i])) && !Shadowed(items[i])
    ensures !Shadowed(JArr(items[..i + 1]))
  {
    var p := items[..i + 1];
    forall j | 0 <= j < |p|
      ensures !Shadowed(p[j])
    {
      if j < i {
        assert p[j] == items[..i][j];
      }
    }
  }

  /** `flattenObject(obj)`: a fresh accumulator filled in place; `None` when the walk
      throws. */
  method FlattenObject(obj: Json) returns (flat: Option<Dict>)
    ensures flat.None? <==> Shadowed(obj)
    ensures flat.Some? ==> flat.value == Flatten(obj)
  {
    var result := new Accumulator();
    var thrown := FlattenInto(obj, "", result);
    if thrown {
      return None;
    }
    flat := Some(result.entries);
  }

  // ---------------------------------------------------------------------------------
  // unflattenObject
  // ---------------------------------------------------------------------------------

  /** The first occurrence of the separator in `s` at or after `from`. */
  function FindSep(s: string, from: nat): (r: Option<nat>)
    requires from <= |s|
    ensures r.Some? ==> from <= r.value && OccursAt(s, SEP, r.value)
    ensures r.Some? ==> forall j :: from <= j < r.value ==> !OccursAt(s, SEP, j)
    ensures r.None? ==> forall j :: from <= j <= |s| ==> !OccursAt(s, SEP, j)
    decreases |s| - from
  {
    if from + |SEP| > |s| then None
    else if OccursAt(s, SEP, from) then Some(from)
    else FindSep(s, from + 1)
  }

  /** `s.split("->>")`: the pieces between the occurrences of the separator, found from
      the left. */
  function Split(s: string): (r: seq<string>)
    ensures |r| >= 1
    decreases |s|
  {
    match FindSep(s, 0)
    case None => [s]
    case Some(i) => [s[..i]] + Split(s[i + |SEP|..])
  }

  /** The property an object assignment `current[realKey]` touches: an all-digit segment
      is first turned into a number, whose property name is its decimal form. */
  function ObjectKey(seg: string): string {
    if AllDigits(seg) then NatToString(ParseDecimal(seg)) else seg
  }

  /** `current[realKey]` read; `None` is `undefined`. Only own properties are seen: a
      string reads one character at an index, and a number or a boolean reads nothing. */
  function Read(cur: Json, seg: string): Option<Json> {
    match cur
    case JObj(fs) => Get(fs, ObjectKey(seg))
    case JArr(items) =>
      if AllDigits(seg) && ParseDecimal(seg) < |items| then Some(items[ParseDecimal(seg)]) else None
    case JStr(s) =>
      if AllDigits(seg) && ParseDecimal(seg) < |s| then Some(JStr([s[ParseDecimal(seg)]])) else None
    case _ => None
  }

  /** Array element assignment; writing past the end leaves holes, which serialise as
      `null`. */
  function SetIndex(items: seq<Json>, n: nat, v: Json): (r: seq<Json>)
    ensures |r| == if n < |items| then |items| else n + 1
    ensures r[n] == v
    ensures forall j :: 0 <= j < |r| && j != n ==> r[j] == (if j < |items| then items[j] else JNull)
  {
    if n < |items| then items[n := v] else items + seq(n - |items|, _ => JNull) + [v]
  }

  /** `current[realKey] = v`. A named property on an array is not part of its JSON form,
      and an assignment to a property of a primitive is ignored. */
  function Assign(cur: Json, seg: string, v: Json): Json {
    match cur
    case JObj(fs) => JObj(Set(fs, ObjectKey(seg), v))
    case JArr(items) => if AllDigits(seg) then JArr(SetIndex(items, ParseDecimal(seg), v)) else cur
    case _ => cur
  }

  /** The container created for a missing intermediate segment. */
  function NewContainer(next: string): Json {
    if AllDigits(next) then JArr([]) else JObj([])
  }

  /** The inner `keys.forEach` of `unflattenObject`: walk down `path` from `cur`, creating
      what is missing or false, and store `v` under the last segment. `None` is the
      `TypeError` a property access on `null` or `undefined` throws. Below a primitive the
      created container is dropped, `current` becomes `undefined`, and the next segment
      throws; a string's character can be walked into, and changes nothing. */
  function SetPath(cur: Json, path: seq<string>, v: Json): Option<Json>
    requires |path| >= 1
    decreases |path|
  {
    if cur.JNull? then None
    else if |path| == 1 then Some(Assign(cur, path[0], v))
    else if IsContainer(cur) then
      var existing := Read(cur, path[0]);
      var child := if existing.Some? && JsTruthy(existing.value) then existing.value
                   else NewContainer(path[1]);
      AssignIn(cur, path[0], SetPath(child, path[1..], v))
    else
      match Read(cur, path[0])
      case None => None
      case Some(ch) => if SetPath(ch, path[1..], v).None? then None else Some(cur)
  }

  /** `current[realKey] = child` after the walk below it, unless that walk threw. */
  function AssignIn(cur: Json, seg: string, child: Option<Json>): Option<Json> {
    match child
    case None => None
    case Some(c) => Some(Assign(cur, seg, c))
  }

  /** The outer `for (const flatKey in flat)` loop from an intermediate `result`. */
  function UnflattenFrom(result: Json, flat: Dict): Option<Json>
    decreases |flat|
  {
    if flat == [] then Some(result)
    else match SetPath(result, Split(flat[0].key), flat[0].val)
      case None => None
      case Some(r) => UnflattenFrom(r, flat[1..])
  }

  /** `unflattenObject(flat)`; `None` when it throws. */
  function Unflatten(flat: Dict): Option<Json> {
    UnflattenFrom(JObj([]), flat)
  }

  method UnflattenObject(flat: Dict) returns (result: Option<Json>)
    ensures result == Unflatten(flat)
  {
    var current := JObj([]);
    for i := 0 to |flat|
      invariant UnflattenFrom(current, flat[i..]) == Unflatten(flat)
    {
      assert flat[i..][1..] == flat[i + 1..];
      var keys := Split(flat[i].key);
      var next := SetPath(current, keys, flat[i].val);
      if next.None? {
        return None;
      }
      current := next.value;
    }
    assert flat[|flat|..] == [];
    return Some(current);
  }

  // ---------------------------------------------------------------------------------
  // What one path assignment does
  // ---------------------------------------------------------------------------------

  predicate IsContainer(j: Json) {
    j.JObj? || j.JArr?
  }

  /** A segment the container `cur` can store under: any segment of an object, an index
      of an array. */
  predicate Addressable(cur: Json, seg: string) {
    cur.JObj? || (cur.JArr? && AllDigits(seg))
  }

  lemma ReadAssign(cur: Json, seg: string, v: Json)
    requires Addressable(cur, seg)
    ensures Read(Assign(cur, seg, v), seg) == Some(v)
  {
  }

  lemma ReadAssignOther(cur: Json, seg: string, other: string, v: Json)
    requires cur.JObj? && ObjectKey(other) != ObjectKey(seg)
    ensures Read(Assign(cur, seg, v), other) == Read(cur, other)
  {
  }

  lemma AssignTwice(cur: Json, seg: string, a: Json, b: Json)
    requires Addressable(cur, seg)
    ensures Assign(Assign(cur, seg, a), seg, b) == Assign(cur, seg, b)
  {
    match cur
    case JObj(fs) =>
      SetTwice(fs, ObjectKey(seg), a, b);
    case JArr(items) =>
      var n := ParseDecimal(seg);
      var x := SetIndex(SetIndex(items, n, a), n, b);
      var y := SetIndex(items, n, b);
      assert |x| == |y|;
      assert forall j :: 0 <= j < |x| ==> x[j] == y[j];
  }

  lemma {:induction false} SetTwice(d: Dict, k: string, a: Json, b: Json)
    ensures Set(Set(d, k, a), k, b) == Set(d, k, b)
    decreases |d|
  {
    if d != [] && d[0].key != k {
      SetTwice(d[1..], k, a, b);
      assert Set(d, k, a) == [d[0]] + Set(d[1..], k, a);
      assert Set(d, k, a)[1..] == Set(d[1..], k, a);
    }
  }

  lemma SetPathKind(cur: Json, path: seq<string>, v: Json)
    requires |path| >= 1
    ensures SetPath(cur, path, v).Some? ==>
              SetPath(cur, path, v).value.JObj? == cur.JObj? && SetPath(cur, path, v).value.JArr? == cur.JArr?
  {
  }

  /** The last segment receives the value. */
  lemma SetPathLast(cur: Json, seg: string, v: Json)
    requires Addressable(cur, seg)
    ensures SetPath(cur, [seg], v).Some? && Read(SetPath(cur, [seg], v).value, seg) == Some(v)
  {
  }

  /** Below a fresh container nothing can throw. */
  lemma {:induction false} SetPathFresh(next: string, path: seq<string>, v: Json)
    requires |path| >= 1
    ensures SetPath(NewContainer(next), path, v).Some?
    decreases |path|
  {
    if |path| >= 2 {
      SetPathFresh(path[1], path[1..], v);
    }
  }

  /** A missing or false intermediate entry is replaced by a new container: an array
      when the next segment is all digits, otherwise an object. */
  lemma SetPathCreates(cur: Json, path: seq<string>, v: Json)
    requires |path| >= 2 && Addressable(cur, path[0])
    requires Read(cur, path[0]).None? || !JsTruthy(Read(cur, path[0]).value)
    ensures SetPath(cur, path, v).Some?
    ensures Read(SetPath(cur, path, v).value, path[0]).Some?
    ensures Read(SetPath(cur, path, v).value, path[0]).value.JArr? <==> AllDigits(path[1])
    ensures Read(SetPath(cur, path, v).value, path[0]).value.JObj? <==> !AllDigits(path[1])
  {
    SetPathFresh(path[1], path[1..], v);
    var child := SetPath(NewContainer(path[1]), path[1..], v).value;
    SetPathKind(NewContainer(path[1]), path[1..], v);
    ReadAssign(cur, path[0], child);
  }

  /** An existing container is reused: the rest of the path is stored inside it, and the
      walk throws exactly when the walk inside it does. */
  lemma SetPathReuses(cur: Json, path: seq<string>, v: Json)
    requires |path| >= 2 && Addressable(cur, path[0])
    requires Read(cur, path[0]).Some? && IsContainer(Read(cur, path[0]).value)
    ensures var inner := SetPath(Read(cur, path[0]).value, path[1..], v);
            (SetPath(cur, path, v).Some? <==> inner.Some?)
            && (inner.Some? ==> Read(SetPath(cur, path, v).value, path[0]) == inner)
  {
    var inner := SetPath(Read(cur, path[0]).value, path[1..], v);
    if inner.Some? {
      ReadAssign(cur, path[0], inner.value);
    }
  }

  /** Nothing under another property of an object changes. */
  lemma SetPathElsewhere(cur: Json, path: seq<string>, v: Json, other: string)
    requires |path| >= 1 && cur.JObj? && ObjectKey(other) != ObjectKey(path[0])
    ensures SetPath(cur, path, v).Some? ==> Read(SetPath(cur, path, v).value, other) == Read(cur, other)
  {
  }

  /** At the last segment an assignment to a property of a primitive is ignored. */
  lemma SetPathScalarLast(cur: Json, seg: string, v: Json)
    requires IsScalar(cur) && !cur.JNull?
    ensures SetPath(cur, [seg], v) == Some(cur)
  {
  }

  /** With more than one segment left, a walk below a number, a boolean, or a string at a
      segment that is not one of its indices throws. */
  lemma SetPathPastPrimitive(cur: Json, path: seq<string>, v: Json)
    requires |path| >= 2 && IsScalar(cur)
    requires !cur.JStr? || !AllDigits(path[0]) || ParseDecimal(path[0]) >= |cur.s|
    ensures SetPath(cur, path, v).None?
  {
  }

  /** A walk that reaches a non-index property of a string with two segments to go throws,
      whatever the object around it. */
  lemma {:induction false} SetPathThroughString(cur: Json, k: string, s: string, path: seq<string>, v: Json)
    requires cur.JObj? && Read(cur, k) == Some(JStr(s)) && s != []
    requires |path| >= 2 && !AllDigits(path[0])
    ensures SetPath(cur, [k] + path, v).None?
  {
    assert ([k] + path)[0] == k && ([k] + path)[1..] == path;
    SetPathPastPrimitive(JStr(s), path, v);
  }

  /** The first key of the example below stores `"x"` under `"a"`. */
  lemma UnflattenFirstKey()
    ensures SetPath(JObj([]), Split("a"), JStr("x")) == Some(JObj([Field("a", JStr("x"))]))
  {
    assert !IsDigit("a"[0]);
    SplitSegment("a");
  }

  /** The second key of the example below walks `a`, `b`, `c`. */
  lemma UnflattenSecondKey()
    ensures Split("a->>b->>c") == ["a", "b", "c"]
  {
    SplitJoin(["a", "b", "c"]);
    assert Join(SEP, ["a", "b", "c"]) == "a->>b->>c";
  }

  /** `{"a": {"hasOwnProperty": 1}}` makes `flattenObject` throw once it walks into the
      inner object. */
  lemma FlattenThrowsBelow()
    ensures Shadowed(JObj([Field("a", JObj([Field("hasOwnProperty", JNum(1))]))]))
  {
    var inner := JObj([Field("hasOwnProperty", JNum(1))]);
    assert [Field("hasOwnProperty", JNum(1))][0].key == GUARD;
    assert Shadowed(inner);
    assert [Field("a", inner)][0].val == inner;
  }

  /** `{"a": "x", "a->>b->>c": "y"}` makes `unflattenObject` throw: the walk for the
      second key reads `"x"`, then `undefined`, and assigning below it throws. */
  lemma UnflattenRunsPastString()
    ensures Unflatten([Field("a", JStr("x")), Field("a->>b->>c", JStr("y"))]).None?
  {
    var d := [Field("a", JStr("x")), Field("a->>b->>c", JStr("y"))];
    var o := JObj([Field("a", JStr("x"))]);
    UnflattenFirstKey();
    UnflattenSecondKey();
    assert !IsDigit("b"[0]);
    assert Read(o, "a") == Some(JStr("x"));
    SetPathThroughString(o, "a", "x", ["b", "c"], JStr("y"));
    assert ["a"] + ["b", "c"] == ["a", "b", "c"];
    assert SetPath(o, Split(d[1].key), d[1].val).None?;
  }

  // ---------------------------------------------------------------------------------
  // The leaves of a record, and what flattenObject makes of them
  // ---------------------------------------------------------------------------------

  /** A leaf of a nested record: the segments leading to it and the value stored there. */
  datatype Leaf = Leaf(path: seq<string>, val: Json)

  /** The leaves `ls` placed under the segment `k`. */
  function Under(k: string, ls: seq<Leaf>): seq<Leaf> {
    seq(|ls|, i requires 0 <= i < |ls| => Leaf([k] + ls[i].path, ls[i].val))
  }

  /** The leaves of a value in depth-first order; a scalar (null included) is its own
      leaf, reached by the empty path. */
  function ValueLeaves(v: Json): seq<Leaf>
    decreases v, 1
  {
    match v
    case JObj(fs) => FieldLeaves(fs)
    case JArr(items) => ItemLeaves(items, 0)
    case _ => [Leaf([], v)]
  }

  function FieldLeaves(fs: Dict): seq<Leaf>
    decreases fs, 0
  {
    if fs == [] then [] else Under(fs[0].key, ValueLeaves(fs[0].val)) + FieldLeaves(fs[1..])
  }

  function ItemLeaves(items: seq<Json>, i: nat): seq<Leaf>
    requires i <= |items|
    decreases items, |items| - i
  {
    if i == |items| then [] else Under(NatToString(i), ValueLeaves(items[i])) + ItemLeaves(items, i + 1)
  }

  /** Leaves as flat entries keyed by their paths, below `base`, joined with the
      separator. */
  function Keyed(ls: seq<Leaf>, base: seq<string>): Dict {
    seq(|ls|, i requires 0 <= i < |ls| => Field(Join(SEP, base + ls[i].path), ls[i].val))
  }

  lemma {:induction false} JoinSnoc(b: seq<string>, k: string)
    requires |b| >= 1
    ensures Join(SEP, b + [k]) == Join(SEP, b) + SEP + k
    decreases |b|
  {
    if |b| > 1 {
      assert (b + [k])[1..] == b[1..] + [k];
      JoinSnoc(b[1..], k);
    }
  }

  lemma KeyedUnder(k: string, ls: seq<Leaf>, b: seq<string>)
    ensures Keyed(Under(k, ls), b) == Keyed(ls, b + [k])
  {
    forall i | 0 <= i < |ls|
      ensures b + ([k] + ls[i].path) == (b + [k]) + ls[i].path
    {
    }
  }

  lemma KeyedAppend(a: seq<Leaf>, c: seq<Leaf>, b: seq<string>)
    ensures Keyed(a + c, b) == Keyed(a, b) + Keyed(c, b)
  {
  }

  lemma {:induction false} UpdateAppend(d: Dict, e1: Dict, e2: Dict)
    ensures Update(d, e1 + e2) == Update(Update(d, e1), e2)
    decreases |e1|
  {
    if e1 == [] {
      assert e1 + e2 == e2;
    } else {
      assert (e1 + e2)[0] == e1[0];
      assert (e1 + e2)[1..] == e1[1..] + e2;
      UpdateAppend(Set(d, e1[0].key, e1[0].val), e1[1..], e2);
    }
  }

  /** One entry of `flattenObject` below the path `b` stores the leaves of its value
      under their joined paths, in depth-first order. */
  lemma {:induction false} EntryLeaves(result: Dict, key: string, v: Json, parent: string, b: seq<string>)
    requires |b| >= 1 && ChildKey(parent, key) == Join(SEP, b) && Join(SEP, b) != ""
    ensures FlattenEntry(result, key, v, parent) == Update(result, Keyed(ValueLeaves(v), b))
    decreases v, 2
  {
    match v
    case JObj(fs) =>
      FieldsLeaves(result, fs, b);
    case JArr(items) =>
      EachLeaves(result, items, 0, b);
    case _ =>
      assert b + [] == b;
      assert Keyed(ValueLeaves(v), b) == [Field(Join(SEP, b), v)];
  }

  lemma {:induction false} FieldsLeaves(result: Dict, fs: Dict, b: seq<string>)
    requires |b| >= 1 && Join(SEP, b) != ""
    ensures FlattenFields(result, fs, Join(SEP, b)) == Update(result, Keyed(FieldLeaves(fs), b))
    decreases fs, 0
  {
    if fs != [] {
      var k := fs[0].key;
      var n := Join(SEP, b);
      JoinSnoc(b, k);
      EntryLeaves(result, k, fs[0].val, n, b + [k]);
      var r1 := FlattenEntry(result, k, fs[0].val, n);
      FieldsLeaves(r1, fs[1..], b);
      var a := Under(k, ValueLeaves(fs[0].val));
      KeyedUnder(k, ValueLeaves(fs[0].val), b);
      KeyedAppend(a, FieldLeaves(fs[1..]), b);
      UpdateAppend(result, Keyed(a, b), Keyed(FieldLeaves(fs[1..]), b));
    }
  }

  lemma {:induction false} IndexedLeaves(result: Dict, items: seq<Json>, i: nat, b: seq<string>)
    requires i <= |items| && |b| >= 1 && Join(SEP, b) != ""
    ensures FlattenIndexed(result, items, i, Join(SEP, b)) == Update(result, Keyed(ItemLeaves(items, i), b))
    decreases items, |items| - i
  {
    if i < |items| {
      var idx := NatToString(i);
      var n := Join(SEP, b);
      var r1 := FlattenEntry(result, idx, items[i], n);
      calc {
        FlattenIndexed(result, items, i, n);
        FlattenIndexed(r1, items, i + 1, n);
        { IndexedLeaves(r1, items, i + 1, b); }
        Update(r1, Keyed(ItemLeaves(items, i + 1), b));
        { JoinSnoc(b, idx);
          assert ChildKey(n, idx) == Join(SEP, b + [idx]);
          EntryLeaves(result, idx, items[i], n, b + [idx]); }
        Update(Update(result, Keyed(ValueLeaves(items[i]), b + [idx])), Keyed(ItemLeaves(items, i + 1), b));
        { ItemStep(result, items, i, b); }
        Update(result, Keyed(ItemLeaves(items, i), b));
      }
    }
  }

  /** The leaves of element `i` come first among those of elements `i..`. */
  lemma ItemStep(result: Dict, items: seq<Json>, i: nat, b: seq<string>)
    requires i < |items|
    ensures Update(result, Keyed(ItemLeaves(items, i), b))
         == Update(Update(result, Keyed(ValueLeaves(items[i]), b + [NatToString(i)])), Keyed(ItemLeaves(items, i + 1), b))
  {
    var idx := NatToString(i);
    var a := Under(idx, ValueLeaves(items[i]));
    assert ItemLeaves(items, i) == a + ItemLeaves(items, i + 1);
    KeyedUnder(idx, ValueLeaves(items[i]), b);
    KeyedAppend(a, ItemLeaves(items, i + 1), b);
    UpdateAppend(result, Keyed(a, b), Keyed(ItemLeaves(items, i + 1), b));
  }

  /** One step of `forEach`: an element stored under `b`, as its own leaf or by
      recursion. */
  lemma {:induction false} EachItem(result: Dict, item: Json, b: seq<string>)
    requires |b| >= 1 && Join(SEP, b) != ""
    ensures FlattenItem(result, item, Join(SEP, b)) == Update(result, Keyed(ValueLeaves(item), b))
    decreases item, 0
  {
    match item
    case JObj(fs) =>
      FieldsLeaves(result, fs, b);
    case JArr(xs) =>
      IndexedLeaves(result, xs, 0, b);
    case _ =>
      assert b + [] == b;
      assert Keyed(ValueLeaves(item), b) == [Field(Join(SEP, b), item)];
  }

  /** The first element handled by `forEach` from index `i` on. */
  lemma {:induction false} EachHead(result: Dict, items: seq<Json>, i: nat, b: seq<string>)
    requires i < |items| && |b| >= 1 && Join(SEP, b) != ""
    ensures FlattenItem(result, items[i], Join(SEP, b) + SEP + NatToString(i))
         == Update(result, Keyed(ValueLeaves(items[i]), b + [NatToString(i)]))
    decreases items, |items| - i, 0
  {
    JoinSnoc(b, NatToString(i));
    EachItem(result, items[i], b + [NatToString(i)]);
  }

  lemma {:induction false} EachLeaves(result: Dict, items: seq<Json>, i: nat, b: seq<string>)
    requires i <= |items| && |b| >= 1 && Join(SEP, b) != ""
    ensures FlattenEach(result, items, i, Join(SEP, b)) == Update(result, Keyed(ItemLeaves(items, i), b))
    decreases items, |items| - i
  {
    if i < |items| {
      var n := Join(SEP, b);
      var idx := NatToString(i);
      var r1 := FlattenItem(result, items[i], n + SEP + idx);
      calc {
        FlattenEach(result, items, i, n);
        FlattenEach(r1, items, i + 1, n);
        { EachLeaves(r1, items, i + 1, b); }
        Update(r1, Keyed(ItemLeaves(items, i + 1), b));
        { EachHead(result, items, i, b); }
        Update(Update(result, Keyed(ValueLeaves(items[i]), b + [idx])), Keyed(ItemLeaves(items, i + 1), b));
        { ItemStep(result, items, i, b); }
        Update(result, Keyed(ItemLeaves(items, i), b));
      }
    }
  }

  /** Keys that are not empty. */
  predicate NonEmptyKeys(fs: Dict) {
    forall i :: 0 <= i < |fs| ==> fs[i].key != ""
  }

  /** `flattenObject` on an object with non-empty keys stores every leaf under its path of
      keys and indices joined with `"->>"`, in depth-first order, with the leaf value
      unchanged; a later leaf with an equal key overwrites an earlier one. */
  lemma {:induction false} FlattenStoresLeaves(result: Dict, fs: Dict)
    requires NonEmptyKeys(fs)
    ensures FlattenFields(result, fs, "") == Update(result, Keyed(FieldLeaves(fs), []))
    decreases |fs|
  {
    if fs != [] {
      var k := fs[0].key;
      EntryLeaves(result, k, fs[0].val, "", [k]);
      var r1 := FlattenEntry(result, k, fs[0].val, "");
      assert NonEmptyKeys(fs[1..]) by {
        forall i | 0 <= i < |fs[1..]| ensures fs[1..][i].key != "" {
          assert fs[1..][i] == fs[i + 1];
        }
      }
      FlattenStoresLeaves(r1, fs[1..]);
      var a := Under(k, ValueLeaves(fs[0].val));
      KeyedUnder(k, ValueLeaves(fs[0].val), []);
      assert [] + [k] == [k];
      KeyedAppend(a, FieldLeaves(fs[1..]), []);
      UpdateAppend(result, Keyed(a, []), Keyed(FieldLeaves(fs[1..]), []));
    }
  }

  // ---------------------------------------------------------------------------------
  // Joined keys split back into their segments
  // ---------------------------------------------------------------------------------

  /** A segment that can be read back from a joined key. */
  predicate NoSep(seg: string) {
    !Contains(seg, SEP)
  }

  predicate SegmentsOk(p: seq<string>) {
    forall j :: 0 <= j < |p| ==> NoSep(p[j])
  }

  lemma DigitsNoSep(s: string)
    requires AllDigits(s)
    ensures NoSep(s)
  {
    forall i: nat | i <= |s|
      ensures !OccursAt(s, SEP, i)
    {
      if i + |SEP| <= |s| {
        assert s[i..i + |SEP|][0] == s[i];
      }
    }
  }

  lemma {:induction false} FindSepAt(s: string, from: nat, m: nat)
    requires from <= m <= |s| && OccursAt(s, SEP, m)
    requires forall j :: from <= j < m ==> !OccursAt(s, SEP, j)
    ensures FindSep(s, from) == Some(m)
    decreases m - from
  {
    if from < m {
      FindSepAt(s, from + 1, m);
    }
  }

  lemma SplitSegment(x: string)
    requires NoSep(x)
    ensures Split(x) == [x]
  {
  }

  /** Splitting a joined key gives back its segments, when no segment contains the
      separator. */
  lemma {:induction false} SplitJoin(p: seq<string>)
    requires |p| >= 1 && SegmentsOk(p)
    ensures Split(Join(SEP, p)) == p
    decreases |p|
  {
    if |p| == 1 {
      SplitSegment(p[0]);
    } else {
      var x := p[0];
      var rest := Join(SEP, p[1..]);
      var s := Join(SEP, p);
      assert s == x + SEP + rest;
      assert s[|x|..|x| + |SEP|] == SEP;
      assert s[|x|] == '-';
      forall j | 0 <= j < |x|
        ensures !OccursAt(s, SEP, j)
      {
        if j + |SEP| <= |x| {
          assert !OccursAt(x, SEP, j);
          assert s[j..j + |SEP|] == x[j..j + |SEP|];
        } else if j + |SEP| <= |s| {
          assert s[j..j + |SEP|][|x| - j] == s[|x|];
        }
      }
      FindSepAt(s, 0, |x|);
      assert s[..|x|] == x;
      assert s[|x| + |SEP|..] == rest;
      forall j | 0 <= j < |p[1..]|
        ensures NoSep(p[1..][j])
      {
        assert p[1..][j] == p[j + 1];
      }
      SplitJoin(p[1..]);
    }
  }

  // ---------------------------------------------------------------------------------
  // The leaves of a restorable record have pairwise different keys
  // ---------------------------------------------------------------------------------

  /** A key that survives as a path segment: no separator inside, and not all digits
      (which would come back as an array index). */
  predicate SegmentKey(k: string) {
    NoSep(k) && !AllDigits(k) && !InheritedName(k)
  }

  /** The properties a plain object inherits from `Object.prototype`. Reading one of them
      finds the inherited member, which the walk in `unflattenObject` would step into, and
      assigning `__proto__` replaces the prototype. */
  predicate InheritedName(k: string) {
    k == "constructor" || k == "hasOwnProperty" || k == "isPrototypeOf"
    || k == "propertyIsEnumerable" || k == "toLocaleString" || k == "toString"
    || k == "valueOf" || k == "__proto__" || k == "__defineGetter__"
    || k == "__defineSetter__" || k == "__lookupGetter__" || k == "__lookupSetter__"
  }

  /** A value that the round trip through the flat form preserves: distinct keys that
      survive as segments, and no empty object or array anywhere (an empty one leaves
      no flat entry behind). */
  predicate Restorable(v: Json)
    decreases v, 1
  {
    match v
    case JObj(fs) => fs != [] && RestorableFields(fs)
    case JArr(items) => items != [] && RestorableItems(items)
    case _ => true
  }

  predicate RestorableFields(fs: Dict)
    decreases fs, 0
  {
    DistinctKeys(fs) && forall i :: 0 <= i < |fs| ==> SegmentKey(fs[i].key) && Restorable(fs[i].val)
  }

  predicate RestorableItems(items: seq<Json>)
    decreases items, 0
  {
    forall i :: 0 <= i < |items| ==> Restorable(items[i])
  }

  /** `flattenObject` does not throw on a restorable value: `hasOwnProperty` is an
      inherited name, which no key of it is. */
  lemma {:induction false} RestorableNotShadowed(v: Json)
    requires Restorable(v)
    ensures !Shadowed(v)
    decreases v, 1
  {
    match v
    case JObj(fs) =>
      FieldsNotShadowed(fs);
    case JArr(items) =>
      forall i | 0 <= i < |items|
        ensures !Shadowed(items[i])
      {
        assert Restorable(items[i]);
        RestorableNotShadowed(items[i]);
      }
    case _ =>
  }

  lemma {:induction false} FieldsNotShadowed(fs: Dict)
    requires RestorableFields(fs)
    ensures !Shadowed(JObj(fs))
    decreases fs, 0
  {
    forall i | 0 <= i < |fs|
      ensures fs[i].key != GUARD && !Shadowed(fs[i].val)
    {
      assert SegmentKey(fs[i].key) && Restorable(fs[i].val);
      RestorableNotShadowed(fs[i].val);
    }
  }

  lemma RestorableRest(fs: Dict)
    requires fs != [] && RestorableFields(fs)
    ensures RestorableFields(fs[1..]) && fs[0].key !in KeySet(fs[1..])
  {
    forall i | 0 <= i < |fs[1..]|
      ensures SegmentKey(fs[1..][i].key) && Restorable(fs[1..][i].val)
    {
      assert fs[1..][i] == fs[i + 1];
    }
  }

  predicate PathsApart(ls: seq<Leaf>) {
    forall i, j :: 0 <= i < j < |ls| ==> ls[i].path != ls[j].path
  }

  predicate SegsOk(ls: seq<Leaf>) {
    forall i :: 0 <= i < |ls| ==> SegmentsOk(ls[i].path)
  }

  predicate NonEmptyPaths(ls: seq<Leaf>) {
    forall i :: 0 <= i < |ls| ==> |ls[i].path| >= 1
  }

  lemma UnderFacts(k: string, ls: seq<Leaf>)
    ensures NonEmptyPaths(Under(k, ls))
    ensures forall i :: 0 <= i < |ls| ==> Under(k, ls)[i].path[0] == k
    ensures PathsApart(ls) ==> PathsApart(Under(k, ls))
    ensures SegsOk(ls) && NoSep(k) ==> SegsOk(Under(k, ls))
  {
    var u := Under(k, ls);
    forall i | 0 <= i < |ls|
      ensures u[i].path[1..] == ls[i].path
    {
    }
    if SegsOk(ls) && NoSep(k) {
      forall i, j | 0 <= i < |ls| && 0 <= j < |u[i].path|
        ensures NoSep(u[i].path[j])
      {
        if j > 0 {
          assert u[i].path[j] == ls[i].path[j - 1];
        }
      }
    }
  }

  lemma AppendFacts(a: seq<Leaf>, c: seq<Leaf>)
    requires PathsApart(a) && PathsApart(c)
    requires forall i, j :: 0 <= i < |a| && 0 <= j < |c| ==> a[i].path != c[j].path
    ensures PathsApart(a + c)
    ensures SegsOk(a) && SegsOk(c) ==> SegsOk(a + c)
    ensures NonEmptyPaths(a) && NonEmptyPaths(c) ==> NonEmptyPaths(a + c)
  {
    var ac := a + c;
    forall i, j | 0 <= i < j < |ac|
      ensures ac[i].path != ac[j].path
    {
      if j < |a| {
      } else if i < |a| {
        assert ac[j] == c[j - |a|];
      } else {
        assert ac[i] == c[i - |a|] && ac[j] == c[j - |a|];
      }
    }
  }

  lemma {:induction false} ValuePaths(v: Json)
    requires Restorable(v)
    ensures |ValueLeaves(v)| >= 1 && PathsApart(ValueLeaves(v)) && SegsOk(ValueLeaves(v))
    ensures IsContainer(v) ==> NonEmptyPaths(ValueLeaves(v))
    ensures v.JObj? ==> ValueLeaves(v)[0].path[0] == v.fields[0].key
    ensures v.JArr? ==> ValueLeaves(v)[0].path[0] == "0"
    decreases v, 1
  {
    match v
    case JObj(fs) =>
      FieldPaths(fs);
    case JArr(items) =>
      ItemPaths(items, 0);
    case _ =>
  }

  lemma {:induction false} FieldPaths(fs: Dict)
    requires RestorableFields(fs)
    ensures PathsApart(FieldLeaves(fs)) && SegsOk(FieldLeaves(fs)) && NonEmptyPaths(FieldLeaves(fs))
    ensures forall i :: 0 <= i < |FieldLeaves(fs)| ==> FieldLeaves(fs)[i].path[0] in KeySet(fs)
    ensures fs != [] ==> |FieldLeaves(fs)| >= 1 && FieldLeaves(fs)[0].path[0] == fs[0].key
    decreases fs, 0
  {
    if fs != [] {
      var k := fs[0].key;
      var vl := ValueLeaves(fs[0].val);
      ValuePaths(fs[0].val);
      UnderFacts(k, vl);
      RestorableRest(fs);
      FieldPaths(fs[1..]);
      var a := Under(k, vl);
      var c := FieldLeaves(fs[1..]);
      forall i, j | 0 <= i < |a| && 0 <= j < |c|
        ensures a[i].path != c[j].path
      {
        assert a[i].path[0] == k;
        assert c[j].path[0] in KeySet(fs[1..]);
      }
      AppendFacts(a, c);
      assert FieldLeaves(fs) == a + c;
    }
  }

  lemma {:induction false} ItemPaths(items: seq<Json>, i: nat)
    requires i <= |items| && RestorableItems(items)
    ensures PathsApart(ItemLeaves(items, i)) && SegsOk(ItemLeaves(items, i)) && NonEmptyPaths(ItemLeaves(items, i))
    ensures forall l :: 0 <= l < |ItemLeaves(items, i)| ==>
              AllDigits(ItemLeaves(items, i)[l].path[0]) && ParseDecimal(ItemLeaves(items, i)[l].path[0]) >= i
    ensures i < |items| ==> |ItemLeaves(items, i)| >= 1 && ItemLeaves(items, i)[0].path[0] == NatToString(i)
    decreases items, |items| - i
  {
    if i < |items| {
      var k := NatToString(i);
      var vl := ValueLeaves(items[i]);
      ValuePaths(items[i]);
      DigitsNoSep(k);
      ParseNatToString(i);
      UnderFacts(k, vl);
      ItemPaths(items, i + 1);
      var a := Under(k, vl);
      var c := ItemLeaves(items, i + 1);
      forall x, y | 0 <= x < |a| && 0 <= y < |c|
        ensures a[x].path != c[y].path
      {
        assert ParseDecimal(a[x].path[0]) == i;
        assert ParseDecimal(c[y].path[0]) >= i + 1;
      }
      AppendFacts(a, c);
      assert ItemLeaves(items, i) == a + c;
    }
  }

  /** Leaves at different paths get different flat keys. */
  lemma KeyedApart(ls: seq<Leaf>)
    requires PathsApart(ls) && SegsOk(ls) && NonEmptyPaths(ls)
    ensures DistinctKeys(Keyed(ls, []))
  {
    var d := Keyed(ls, []);
    forall i, j | 0 <= i < j < |d|
      ensures d[i].key != d[j].key
    {
      assert [] + ls[i].path == ls[i].path && [] + ls[j].path == ls[j].path;
      SplitJoin(ls[i].path);
      SplitJoin(ls[j].path);
    }
    DistinctKeysByIndex(d);
  }

  // ---------------------------------------------------------------------------------
  // unflattenObject rebuilds a restorable record from its leaves
  // ---------------------------------------------------------------------------------

  /** `unflattenObject`'s outer loop, over leaves given by their paths. */
  function Fold(root: Json, ls: seq<Leaf>): Option<Json>
    decreases |ls|
  {
    if ls == [] then Some(root)
    else if ls[0].path == [] then Fold(root, ls[1..])
    else match SetPath(root, ls[0].path, ls[0].val)
      case None => None
      case Some(r) => Fold(r, ls[1..])
  }

  /** Folding the leaves `c` after `a`, unless `a` already threw. */
  function FoldOn(r: Option<Json>, c: seq<Leaf>): Option<Json> {
    match r
    case None => None
    case Some(x) => Fold(x, c)
  }

  /** The first flat entry of `Keyed(ls, [])` splits back into the first leaf's path. */
  lemma KeyedHead(ls: seq<Leaf>)
    requires ls != [] && |ls[0].path| >= 1 && SegmentsOk(ls[0].path)
    ensures var d := Keyed(ls, []);
            Split(d[0].key) == ls[0].path && d[0].val == ls[0].val && d[1..] == Keyed(ls[1..], [])
  {
    assert [] + ls[0].path == ls[0].path;
    SplitJoin(ls[0].path);
  }

  lemma {:induction false} UnflattenKeyed(root: Json, ls: seq<Leaf>)
    requires NonEmptyPaths(ls) && SegsOk(ls)
    ensures UnflattenFrom(root, Keyed(ls, [])) == Fold(root, ls)
    decreases |ls|
  {
    if ls != [] {
      var d := Keyed(ls, []);
      KeyedHead(ls);
      assert NonEmptyPaths(ls[1..]) && SegsOk(ls[1..]);
      var r := SetPath(root, ls[0].path, ls[0].val);
      if r.Some? {
        UnflattenKeyed(r.value, ls[1..]);
        assert UnflattenFrom(root, d) == UnflattenFrom(r.value, d[1..]);
      } else {
        assert UnflattenFrom(root, d) == None;
      }
    }
  }

  lemma {:induction false} FoldAppend(root: Json, a: seq<Leaf>, c: seq<Leaf>)
    ensures Fold(root, a + c) == FoldOn(Fold(root, a), c)
    decreases |a|
  {
    if a == [] {
      assert a + c == c;
    } else {
      assert (a + c)[0] == a[0];
      assert (a + c)[1..] == a[1..] + c;
      var next := if a[0].path == [] then Some(root) else SetPath(root, a[0].path, a[0].val);
      if next.Some? {
        FoldAppend(next.value, a[1..], c);
      }
    }
  }

  /** A path below `k` into the container stored under `k` is a path inside that
      container. */
  lemma SetPathUnder(cur: Json, k: string, c: Json, p: seq<string>, v: Json)
    requires Addressable(cur, k) && IsContainer(c) && p != []
    ensures SetPath(Assign(cur, k, c), [k] + p, v) == AssignIn(cur, k, SetPath(c, p, v))
    ensures SetPath(c, p, v).Some? ==> IsContainer(SetPath(c, p, v).value)
  {
    ReadAssign(cur, k, c);
    assert ([k] + p)[0] == k && ([k] + p)[1..] == p;
    SetPathKind(c, p, v);
    var r := SetPath(c, p, v);
    if r.Some? {
      assert SetPath(Assign(cur, k, c), [k] + p, v) == Some(Assign(Assign(cur, k, c), k, r.value));
      AssignTwice(cur, k, c, r.value);
    }
  }

  /** The first leaf below `k` and the rest. */
  lemma UnderSplit(k: string, ls: seq<Leaf>)
    requires ls != []
    ensures var u := Under(k, ls);
            u != [] && u[0] == Leaf([k] + ls[0].path, ls[0].val) && u[1..] == Under(k, ls[1..])
  {
  }

  /** Once a container sits under `k`, every later leaf below `k` goes into it. */
  lemma {:induction false} FoldUnder(cur: Json, k: string, c: Json, ls: seq<Leaf>)
    requires Addressable(cur, k) && IsContainer(c) && NonEmptyPaths(ls)
    ensures Fold(Assign(cur, k, c), Under(k, ls)) == AssignIn(cur, k, Fold(c, ls))
    decreases |ls|
  {
    if ls != [] {
      var p := ls[0].path;
      UnderSplit(k, ls);
      SetPathUnder(cur, k, c, p, ls[0].val);
      var r := SetPath(c, p, ls[0].val);
      if r.Some? {
        assert NonEmptyPaths(ls[1..]) by {
          forall j | 0 <= j < |ls[1..]| ensures ls[1..][j].path != [] {
            assert ls[1..][j] == ls[j + 1];
          }
        }
        FoldUnder(cur, k, r.value, ls[1..]);
      }
    }
  }

  /** A scalar below a fresh segment `k` is one leaf that stores it there. */
  lemma InsertScalar(cur: Json, k: string, v: Json)
    requires Addressable(cur, k) && IsScalar(v)
    ensures Fold(cur, Under(k, ValueLeaves(v))) == Some(Assign(cur, k, v))
  {
    var ls := ValueLeaves(v);
    assert ls == [Leaf([], v)];
    assert [k] + [] == [k];
    assert Under(k, ls) == [Leaf([k], v)];
  }

  /** The leaves of an object or array `v` below a fresh segment `k` build, under `k`, the
      fold of those leaves into an empty container of the same kind. */
  lemma InsertContainer(cur: Json, k: string, v: Json)
    requires Addressable(cur, k) && Read(cur, k).None? && Restorable(v) && !IsScalar(v)
    ensures Fold(cur, Under(k, ValueLeaves(v)))
         == AssignIn(cur, k, Fold(if v.JObj? then JObj([]) else JArr([]), ValueLeaves(v)))
  {
    var ls := ValueLeaves(v);
    ValuePaths(v);
    var p := ls[0].path;
    var empty := NewContainer(p[0]);
    assert empty == if v.JObj? then JObj([]) else JArr([]) by {
      if v.JArr? {
        assert AllDigits("0");
      }
    }
    UnderSplit(k, ls);
    assert SetPath(cur, [k] + p, ls[0].val) == AssignIn(cur, k, SetPath(empty, p, ls[0].val)) by {
      assert ([k] + p)[0] == k && ([k] + p)[1..] == p;
    }
    SetPathFresh(p[0], p, ls[0].val);
    var c1 := SetPath(empty, p, ls[0].val).value;
    SetPathKind(empty, p, ls[0].val);
    assert NonEmptyPaths(ls[1..]) by {
      forall j | 0 <= j < |ls[1..]| ensures ls[1..][j].path != [] {
        assert ls[1..][j] == ls[j + 1];
      }
    }
    FoldUnder(cur, k, c1, ls[1..]);
  }

  /** The leaves of `v` below a fresh segment `k` put `v` there. */
  lemma {:induction false} Insert(cur: Json, k: string, v: Json)
    requires Addressable(cur, k) && Read(cur, k).None? && Restorable(v)
    ensures Fold(cur, Under(k, ValueLeaves(v))) == Some(Assign(cur, k, v))
    decreases v, 0
  {
    if IsScalar(v) {
      InsertScalar(cur, k, v);
    } else {
      InsertContainer(cur, k, v);
      match v
      case JObj(fs) =>
        Rebuild([], fs);
        assert [] + fs == fs;
      case JArr(items) =>
        RebuildItems([], items, 0);
        assert [] + items[0..] == items;
    }
  }

  /** The leaves of the first field, folded into an object holding other keys, append
      that field. */
  lemma RebuildHead(acc: Dict, fs: Dict)
    requires fs != [] && KeySet(acc) !! KeySet(fs) && RestorableFields(fs)
    ensures Fold(JObj(acc), FieldLeaves(fs)) == Fold(JObj(acc + [fs[0]]), FieldLeaves(fs[1..]))
    decreases fs, 0
  {
    var k := fs[0].key;
    var a := Under(k, ValueLeaves(fs[0].val));
    var rest := FieldLeaves(fs[1..]);
    calc {
      Fold(JObj(acc), FieldLeaves(fs));
      { assert FieldLeaves(fs) == a + rest;
        FoldAppend(JObj(acc), a, rest); }
      FoldOn(Fold(JObj(acc), a), rest);
      { assert SegmentKey(k) && Restorable(fs[0].val);
        assert k !in KeySet(acc);
        Insert(JObj(acc), k, fs[0].val); }
      Fold(Assign(JObj(acc), k, fs[0].val), rest);
      { assert Assign(JObj(acc), k, fs[0].val) == JObj(acc + [fs[0]]); }
      Fold(JObj(acc + [fs[0]]), rest);
    }
  }

  /** The leaves of the fields `fs`, folded into an object holding other keys, append
      those fields. */
  lemma {:induction false} Rebuild(acc: Dict, fs: Dict)
    requires KeySet(acc) !! KeySet(fs) && RestorableFields(fs)
    ensures Fold(JObj(acc), FieldLeaves(fs)) == Some(JObj(acc + fs))
    decreases fs, 1
  {
    if fs == [] {
      assert acc + fs == acc;
    } else {
      calc {
        Fold(JObj(acc), FieldLeaves(fs));
        { RebuildHead(acc, fs); }
        Fold(JObj(acc + [fs[0]]), FieldLeaves(fs[1..]));
        { RestorableRest(fs);
          KeySetAppend(acc, [fs[0]]);
          assert KeySet([fs[0]]) == {fs[0].key};
          Rebuild(acc + [fs[0]], fs[1..]); }
        Some(JObj(acc + [fs[0]] + fs[1..]));
        { assert acc + [fs[0]] + fs[1..] == acc + fs; }
        Some(JObj(acc + fs));
      }
    }
  }

  lemma {:induction false} RebuildItems(acc: seq<Json>, items: seq<Json>, i: nat)
    requires |acc| == i <= |items| && RestorableItems(items)
    ensures Fold(JArr(acc), ItemLeaves(items, i)) == Some(JArr(acc + items[i..]))
    decreases items, |items| - i
  {
    if i == |items| {
      assert acc + items[i..] == acc;
    } else {
      var k := NatToString(i);
      var a := Under(k, ValueLeaves(items[i]));
      var rest := ItemLeaves(items, i + 1);
      calc {
        Fold(JArr(acc), ItemLeaves(items, i));
        { assert ItemLeaves(items, i) == a + rest;
          FoldAppend(JArr(acc), a, rest); }
        FoldOn(Fold(JArr(acc), a), rest);
        { ParseNatToString(i);
          assert Restorable(items[i]);
          Insert(JArr(acc), k, items[i]); }
        Fold(Assign(JArr(acc), k, items[i]), rest);
        { ParseNatToString(i);
          assert SetIndex(acc, i, items[i]) == acc + [items[i]]; }
        Fold(JArr(acc + [items[i]]), rest);
        { RebuildItems(acc + [items[i]], items, i + 1); }
        Some(JArr(acc + [items[i]] + items[i + 1..]));
        { assert acc + [items[i]] + items[i + 1..] == acc + items[i..]; }
        Some(JArr(acc + items[i..]));
      }
    }
  }

  /** The keys of `o` can be put back together: non-empty at the top (an empty top-level
      key adds no prefix for what lies below it) and restorable everywhere. */
  predicate RoundTrips(o: Json) {
    o.JObj? && NonEmptyKeys(o.fields) && RestorableFields(o.fields)
  }

  /** `flattenObject` of a restorable object has one entry per leaf, keyed by the leaf's
      joined path, in depth-first order. */
  lemma FlattenIsKeyedLeaves(o: Json)
    requires RoundTrips(o)
    ensures Flatten(o) == Keyed(FieldLeaves(o.fields), [])
    ensures DistinctKeys(Flatten(o))
  {
    var ls := FieldLeaves(o.fields);
    FlattenStoresLeaves([], o.fields);
    FieldPaths(o.fields);
    KeyedApart(ls);
    UpdateDisjoint([], Keyed(ls, []));
    assert [] + Keyed(ls, []) == Keyed(ls, []);
  }

  /** `unflattenObject(flattenObject(o))` is `o`, and does not throw. */
  lemma RoundTrip(o: Json)
    requires RoundTrips(o)
    ensures !Shadowed(o)
    ensures Unflatten(Flatten(o)) == Some(o)
  {
    FieldsNotShadowed(o.fields);
    var ls := FieldLeaves(o.fields);
    FlattenIsKeyedLeaves(o);
    FieldPaths(o.fields);
    UnflattenKeyed(JObj([]), ls);
    Rebuild([], o.fields);
    assert [] + o.fields == o.fields;
  }
}
