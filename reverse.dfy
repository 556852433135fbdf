/** The capture extension's map from known applicant values to the placeholders that name
    them (`reverseValueToPlaceholder`), as `buildReverseMap` fills it from a flattened
    applicant file, and its inversion back into a flat record of placeholder names and
    values when a capture stops. */
module Reverse {
  import opened Wrappers
  import opened Json

  /** The placeholder a flat key is known by. */
  function PlaceholderFor(key: string): string {
    "$" + key
  }

  /** Every bound value is an array, as `buildReverseMap` leaves the map. */
  ghost predicate IsListMap(m: Dict) {
    forall k :: Get(m, k).Some? ==> Get(m, k).value.JArr?
  }

  /** The array bound to `value`; a missing entry starts as `[]`. */
  function ListOf(m: Dict, value: string): seq<Json> {
    match Get(m, value)
    case Some(JArr(xs)) => xs
    case _ => []
  }

  /** `if (!list.includes(x)) list.push(x)`. */
  function AddUnique(xs: seq<Json>, x: Json): seq<Json> {
    if x in xs then xs else xs + [x]
  }

  /** One iteration of the loop over the flat entries: a string value gets the entry's
      placeholder added to its list; any other value is skipped. */
  function ReverseStep(m: Dict, f: Field): (r: Dict)
    ensures IsListMap(m) ==> IsListMap(r)
    ensures DistinctKeys(m) ==> DistinctKeys(r)
  {
    match f.val
    case JStr(s) => Set(m, s, JArr(AddUnique(ListOf(m, s), JStr(PlaceholderFor(f.key)))))
    case _ => m
  }

  function ReverseFrom(m: Dict, flat: Dict): (r: Dict)
    ensures IsListMap(m) ==> IsListMap(r)
    ensures DistinctKeys(m) ==> DistinctKeys(r)
    decreases |flat|
  {
    if flat == [] then m else ReverseFrom(ReverseStep(m, flat[0]), flat[1..])
  }

  /** The map `buildReverseMap` leaves for the flattened file `flat`, starting from the
      reset map `{}`. */
  function ReverseMap(flat: Dict): Dict {
    ReverseFrom([], flat)
  }

  // ---------------------------------------------------------------------------------
  // What the map holds
  // ---------------------------------------------------------------------------------

  /** The placeholders of the entries of `flat` whose value is the string `value`, in
      order. */
  function PlaceholdersOf(flat: Dict, value: string): seq<Json>
    decreases |flat|
  {
    if flat == [] then []
    else (if flat[0].val == JStr(value) then [JStr(PlaceholderFor(flat[0].key))] else [])
         + PlaceholdersOf(flat[1..], value)
  }

  function AddAll(xs: seq<Json>, ys: seq<Json>): seq<Json>
    decreases |ys|
  {
    if ys == [] then xs else AddAll(AddUnique(xs, ys[0]), ys[1..])
  }

  /** `ys` with every repetition of an earlier element removed. */
  function Dedup(ys: seq<Json>): seq<Json> {
    AddAll([], ys)
  }

  predicate NoDup(xs: seq<Json>) {
    forall i, j :: 0 <= i < j < |xs| ==> xs[i] != xs[j]
  }

  lemma {:induction false} ReverseFromGet(m: Dict, flat: Dict, s: string)
    requires IsListMap(m)
    ensures Get(ReverseFrom(m, flat), s)
         == if Get(m, s).None? && PlaceholdersOf(flat, s) == [] then Get(m, s)
            else Some(JArr(AddAll(ListOf(m, s), PlaceholdersOf(flat, s))))
    decreases |flat|
  {
    if flat != [] {
      var m' := ReverseStep(m, flat[0]);
      var rest := PlaceholdersOf(flat[1..], s);
      ReverseFromGet(m', flat[1..], s);
      if flat[0].val == JStr(s) {
        var ph := JStr(PlaceholderFor(flat[0].key));
        assert PlaceholdersOf(flat, s) == [ph] + rest;
        assert ([ph] + rest)[0] == ph && ([ph] + rest)[1..] == rest;
        assert ListOf(m', s) == AddUnique(ListOf(m, s), ph);
      } else {
        assert PlaceholdersOf(flat, s) == rest;
        assert Get(m', s) == Get(m, s);
      }
    }
  }

  /** After `buildReverseMap`, a string is bound exactly when some leaf has it as its
      value, and it is bound to the placeholders of those leaves, in the order the leaves
      come, each once. */
  lemma ReverseMapGet(flat: Dict, s: string)
    ensures Get(ReverseMap(flat), s)
         == if PlaceholdersOf(flat, s) == [] then None else Some(JArr(Dedup(PlaceholdersOf(flat, s))))
  {
    ReverseFromGet([], flat, s);
  }

  lemma {:induction false} PlaceholdersMembers(flat: Dict, s: string, x: Json)
    ensures x in PlaceholdersOf(flat, s)
        <==> exists i :: 0 <= i < |flat| && flat[i].val == JStr(s) && x == JStr(PlaceholderFor(flat[i].key))
    decreases |flat|
  {
    if flat != [] {
      PlaceholdersMembers(flat[1..], s, x);
      if exists i :: 0 <= i < |flat[1..]| && flat[1..][i].val == JStr(s) && x == JStr(PlaceholderFor(flat[1..][i].key)) {
        var i :| 0 <= i < |flat[1..]| && flat[1..][i].val == JStr(s) && x == JStr(PlaceholderFor(flat[1..][i].key));
        assert flat[1..][i] == flat[i + 1];
      }
      if exists i :: 0 <= i < |flat| && flat[i].val == JStr(s) && x == JStr(PlaceholderFor(flat[i].key)) {
        var i :| 0 <= i < |flat| && flat[i].val == JStr(s) && x == JStr(PlaceholderFor(flat[i].key));
        if i > 0 {
          assert flat[1..][i - 1] == flat[i];
        }
      }
    }
  }

  /** Only string leaves, and all of them, are recorded. */
  lemma ReverseMapKeys(flat: Dict, s: string)
    ensures s in KeySet(ReverseMap(flat)) <==> exists i :: 0 <= i < |flat| && flat[i].val == JStr(s)
  {
    ReverseMapGet(flat, s);
    if exists i :: 0 <= i < |flat| && flat[i].val == JStr(s) {
      var i :| 0 <= i < |flat| && flat[i].val == JStr(s);
      PlaceholdersMembers(flat, s, JStr(PlaceholderFor(flat[i].key)));
    }
    if PlaceholdersOf(flat, s) != [] {
      PlaceholdersMembers(flat, s, PlaceholdersOf(flat, s)[0]);
    }
  }

  lemma {:induction false} AddAllMembers(xs: seq<Json>, ys: seq<Json>, x: Json)
    ensures x in AddAll(xs, ys) <==> x in xs || x in ys
    decreases |ys|
  {
    if ys != [] {
      AddAllMembers(AddUnique(xs, ys[0]), ys[1..], x);
      assert x in ys <==> x == ys[0] || x in ys[1..];
    }
  }

  lemma {:induction false} AddAllNoDup(xs: seq<Json>, ys: seq<Json>)
    requires NoDup(xs)
    ensures NoDup(AddAll(xs, ys))
    decreases |ys|
  {
    if ys != [] {
      AddAllNoDup(AddUnique(xs, ys[0]), ys[1..]);
    }
  }

  lemma {:induction false} AddAllFresh(xs: seq<Json>, ys: seq<Json>)
    requires NoDup(xs + ys)
    ensures AddAll(xs, ys) == xs + ys
    decreases |ys|
  {
    if ys != [] {
      assert ys[0] !in xs by {
        assert (xs + ys)[|xs|] == ys[0];
        assert forall i :: 0 <= i < |xs| ==> (xs + ys)[i] == xs[i];
      }
      assert xs + ys == (xs + [ys[0]]) + ys[1..];
      AddAllFresh(xs + [ys[0]], ys[1..]);
    }
  }

  /** Each placeholder appears once in a list, and the first time it was seen decides its
      place. */
  lemma DedupFacts(ys: seq<Json>)
    ensures NoDup(Dedup(ys))
    ensures forall x :: x in Dedup(ys) <==> x in ys
    ensures NoDup(ys) ==> Dedup(ys) == ys
  {
    AddAllNoDup([], ys);
    forall x
      ensures x in Dedup(ys) <==> x in ys
    {
      AddAllMembers([], ys, x);
    }
    if NoDup(ys) {
      assert [] + ys == ys;
      AddAllFresh([], ys);
    }
  }

  lemma {:induction false} PlaceholdersNoDup(flat: Dict, s: string)
    requires DistinctKeys(flat)
    ensures NoDup(PlaceholdersOf(flat, s))
    decreases |flat|
  {
    if flat != [] {
      var rest := PlaceholdersOf(flat[1..], s);
      PlaceholdersNoDup(flat[1..], s);
      if flat[0].val == JStr(s) {
        var ph := JStr(PlaceholderFor(flat[0].key));
        forall j | 0 <= j < |rest|
          ensures rest[j] != ph
        {
          PlaceholdersMembers(flat[1..], s, rest[j]);
          var i :| 0 <= i < |flat[1..]| && flat[1..][i].val == JStr(s) && rest[j] == JStr(PlaceholderFor(flat[1..][i].key));
          KeyAt(flat[1..], i);
          assert PlaceholderFor(flat[1..][i].key)[1..] == flat[1..][i].key;
          assert PlaceholderFor(flat[0].key)[1..] == flat[0].key;
        }
        var all := [ph] + rest;
        assert PlaceholdersOf(flat, s) == all;
        forall i, j | 0 <= i < j < |all|
          ensures all[i] != all[j]
        {
          assert all[j] == rest[j - 1];
          if i > 0 {
            assert all[i] == rest[i - 1];
          }
        }
      }
    }
  }

  /** For a flat record with distinct keys (as `flattenObject` makes), a string is bound to
      exactly the placeholders of its leaves in their order. */
  lemma ReverseMapOfDistinct(flat: Dict, s: string)
    requires DistinctKeys(flat)
    ensures Get(ReverseMap(flat), s)
         == if PlaceholdersOf(flat, s) == [] then None else Some(JArr(PlaceholdersOf(flat, s)))
  {
    ReverseMapGet(flat, s);
    PlaceholdersNoDup(flat, s);
    DedupFacts(PlaceholdersOf(flat, s));
  }

  // ---------------------------------------------------------------------------------
  // The inversion in generatePhaseJsonFilesFromReverseMap
  // ---------------------------------------------------------------------------------

  /** `\n`, `\r`, U+2028 and U+2029, which `.` does not match. */
  predicate IsLineTerminator(c: char) {
    c == '\n' || c == '\r' || c == '\U{2028}' || c == '\U{2029}'
  }

  /** `placeholder.match(/^\$(.+)$/)` and its captured group. */
  function MatchField(p: string): (r: Option<string>)
    ensures r.Some? ==> p == PlaceholderFor(r.value) && r.value != ""
  {
    if |p| >= 2 && p[0] == '$' && forall i :: 1 <= i < |p| ==> !IsLineTerminator(p[i])
    then Some(p[1..]) else None
  }

  /** A field name the pattern gives back from its placeholder. */
  predicate Recoverable(key: string) {
    key != "" && forall i :: 0 <= i < |key| ==> !IsLineTerminator(key[i])
  }

  lemma MatchPlaceholder(key: string)
    ensures MatchField(PlaceholderFor(key)) == if Recoverable(key) then Some(key) else None
  {
    var p := PlaceholderFor(key);
    assert p[1..] == key;
    assert forall i :: 1 <= i < |p| ==> p[i] == key[i - 1];
  }

  /** What `for (const placeholder of placeholders)` visits: the string elements of an
      array, or the one-character strings of a string. */
  function Visited(v: Json): seq<string> {
    match v
    case JArr(xs) => StringsOf(xs)
    case JStr(s) => seq(|s|, i requires 0 <= i < |s| => [s[i]])
    case _ => []
  }

  function StringsOf(xs: seq<Json>): (r: seq<string>)
    ensures forall p :: p in r <==> JStr(p) in xs
    decreases |xs|
  {
    if xs == [] then []
    else (match xs[0] case JStr(p) => [p] case _ => []) + StringsOf(xs[1..])
  }

  /** The inner loop for one bound value. */
  function InvertValue(flat: Dict, value: string, ps: seq<string>): Dict
    decreases |ps|
  {
    if ps == [] then flat
    else
      var next := match MatchField(ps[0])
                  case Some(field) => Set(flat, field, JStr(value))
                  case None => flat;
      InvertValue(next, value, ps[1..])
  }

  function InvertFrom(flat: Dict, m: Dict): Dict
    decreases |m|
  {
    if m == [] then flat else InvertFrom(InvertValue(flat, m[0].key, Visited(m[0].val)), m[1..])
  }

  /** The flat record `generatePhaseJsonFilesFromReverseMap` builds, starting from `{}`. */
  function Invert(m: Dict): Dict {
    InvertFrom([], m)
  }

  /** The loops of `generatePhaseJsonFilesFromReverseMap` that fill `flat`. */
  method InvertMap(m: Dict) returns (flat: Dict)
    ensures flat == Invert(m)
  {
    flat := [];
    for i := 0 to |m|
      invariant InvertFrom(flat, m[i..]) == Invert(m)
    {
      var value := m[i].key;
      var ps := Visited(m[i].val);
      assert m[i..][0] == m[i] && m[i..][1..] == m[i + 1..];
      for j := 0 to |ps|
        invariant InvertFrom(InvertValue(flat, value, ps[j..]), m[i + 1..]) == Invert(m)
      {
        assert ps[j..][0] == ps[j] && ps[j..][1..] == ps[j + 1..];
        match MatchField(ps[j]) {
          case Some(field) => flat := Set(flat, field, JStr(value));
          case None =>
        }
      }
    }
  }

  /** One visit of the inversion: a bound value and one of its placeholders. */
  datatype Binding = Binding(value: string, placeholder: string)

  function Bind(value: string, ps: seq<string>): (r: seq<Binding>)
    ensures |r| == |ps| && forall i :: 0 <= i < |ps| ==> r[i] == Binding(value, ps[i])
  {
    seq(|ps|, i requires 0 <= i < |ps| => Binding(value, ps[i]))
  }

  lemma BindMembers(value: string, ps: seq<string>, b: Binding)
    ensures b in Bind(value, ps) <==> b.value == value && b.placeholder in ps
  {
    if b.value == value && b.placeholder in ps {
      var i :| 0 <= i < |ps| && ps[i] == b.placeholder;
      assert Bind(value, ps)[i] == b;
    }
  }

  /** Every visit of the inversion, in order. */
  function Bindings(m: Dict): seq<Binding>
    decreases |m|
  {
    if m == [] then [] else Bind(m[0].key, Visited(m[0].val)) + Bindings(m[1..])
  }

  /** The value of the last visit whose placeholder names `field`. */
  function LastFor(bs: seq<Binding>, field: string): Option<string>
    decreases |bs|
  {
    if bs == [] then None
    else
      var later := LastFor(bs[1..], field);
      if later.Some? then later
      else if MatchField(bs[0].placeholder) == Some(field) then Some(bs[0].value)
      else None
  }

  lemma {:induction false} InvertValueGet(flat: Dict, value: string, ps: seq<string>, field: string)
    ensures Get(InvertValue(flat, value, ps), field)
         == if LastFor(Bind(value, ps), field).Some? then Some(JStr(value)) else Get(flat, field)
    decreases |ps|
  {
    if ps != [] {
      var next := match MatchField(ps[0])
                  case Some(f) => Set(flat, f, JStr(value))
                  case None => flat;
      InvertValueGet(next, value, ps[1..], field);
      assert Bind(value, ps)[1..] == Bind(value, ps[1..]);
    }
  }

  lemma {:induction false} LastForAppend(a: seq<Binding>, c: seq<Binding>, field: string)
    ensures LastFor(a + c, field) == if LastFor(c, field).Some? then LastFor(c, field) else LastFor(a, field)
    decreases |a|
  {
    if a == [] {
      assert a + c == c;
    } else {
      assert (a + c)[1..] == a[1..] + c;
      LastForAppend(a[1..], c, field);
    }
  }

  /** The inversion stores, under each field named by a matching placeholder, the value
      bound to the last such placeholder; placeholders that do not match are skipped and
      every other key keeps its value. */
  lemma {:induction false} InvertGet(flat: Dict, m: Dict, field: string)
    ensures Get(InvertFrom(flat, m), field)
         == match LastFor(Bindings(m), field)
            case Some(v) => Some(JStr(v))
            case None => Get(flat, field)
    decreases |m|
  {
    if m != [] {
      var flat' := InvertValue(flat, m[0].key, Visited(m[0].val));
      InvertGet(flat', m[1..], field);
      InvertValueGet(flat, m[0].key, Visited(m[0].val), field);
      LastForAppend(Bind(m[0].key, Visited(m[0].val)), Bindings(m[1..]), field);
      var a := Bind(m[0].key, Visited(m[0].val));
      if LastFor(a, field).Some? {
        LastForValue(a, m[0].key, Visited(m[0].val), field);
      }
    }
  }

  lemma {:induction false} LastForValue(bs: seq<Binding>, value: string, ps: seq<string>, field: string)
    requires bs == Bind(value, ps) && LastFor(bs, field).Some?
    ensures LastFor(bs, field) == Some(value)
    decreases |ps|
  {
    if LastFor(bs[1..], field).Some? {
      assert bs[1..] == Bind(value, ps[1..]);
      LastForValue(bs[1..], value, ps[1..], field);
    }
  }

  // ---------------------------------------------------------------------------------
  // The inversion gives back the string leaves
  // ---------------------------------------------------------------------------------

  lemma {:induction false} BindingsMembers(m: Dict, b: Binding)
    ensures b in Bindings(m) <==> exists i :: 0 <= i < |m| && b.value == m[i].key && b.placeholder in Visited(m[i].val)
    decreases |m|
  {
    if m != [] {
      BindingsMembers(m[1..], b);
      var a := Bind(m[0].key, Visited(m[0].val));
      BindMembers(m[0].key, Visited(m[0].val), b);
      assert b in Bindings(m) <==> b in a || b in Bindings(m[1..]);
      if exists i :: 0 <= i < |m[1..]| && b.value == m[1..][i].key && b.placeholder in Visited(m[1..][i].val) {
        var i :| 0 <= i < |m[1..]| && b.value == m[1..][i].key && b.placeholder in Visited(m[1..][i].val);
        assert m[1..][i] == m[i + 1];
      }
      if exists i :: 0 <= i < |m| && b.value == m[i].key && b.placeholder in Visited(m[i].val) {
        var i :| 0 <= i < |m| && b.value == m[i].key && b.placeholder in Visited(m[i].val);
        if i > 0 {
          assert m[1..][i - 1] == m[i];
        }
      }
    }
  }

  lemma {:induction false} LastForUniform(bs: seq<Binding>, field: string, s: string)
    requires forall b :: b in bs && MatchField(b.placeholder) == Some(field) ==> b.value == s
    ensures LastFor(bs, field).Some? ==> LastFor(bs, field) == Some(s)
    ensures (exists b :: b in bs && MatchField(b.placeholder) == Some(field)) ==> LastFor(bs, field).Some?
    decreases |bs|
  {
    if bs != [] {
      LastForUniform(bs[1..], field, s);
      if exists b :: b in bs && MatchField(b.placeholder) == Some(field) {
        var b :| b in bs && MatchField(b.placeholder) == Some(field);
        if b != bs[0] {
          assert b in bs[1..];
        }
      }
    }
  }

  lemma {:induction false} GetAt(d: Dict, i: nat)
    requires DistinctKeys(d) && i < |d|
    ensures Get(d, d[i].key) == Some(d[i].val)
    decreases i
  {
    if i > 0 {
      KeyAt(d[1..], i - 1);
      GetAt(d[1..], i - 1);
    }
  }

  /** A key of a flat record with distinct keys has the value its entry gives it. */
  lemma GetEntry(flat: Dict, j: nat, k: string)
    requires DistinctKeys(flat) && j < |flat| && flat[j].key == k
    ensures Get(flat, k) == Some(flat[j].val)
  {
    GetAt(flat, j);
  }

  /** Inverting the map `buildReverseMap` builds from a flat record with distinct keys
      gives back each string leaf whose key the pattern recovers, and nothing that
      disagrees with the record. */
  lemma InvertReverseMap(flat: Dict, k: string)
    requires DistinctKeys(flat)
    ensures Get(Invert(ReverseMap(flat)), k).Some? ==> Get(Invert(ReverseMap(flat)), k) == Get(flat, k)
    ensures Recoverable(k) && Get(flat, k).Some? && Get(flat, k).value.JStr? ==>
              Get(Invert(ReverseMap(flat)), k) == Get(flat, k)
  {
    var bs := Bindings(ReverseMap(flat));
    InvertGet([], ReverseMap(flat), k);
    if LastFor(bs, k).Some? {
      var b := LastWitness(bs, k);
      MatchingBindingValue(flat, b, k);
    }
    if Get(flat, k).Some? && Get(flat, k).value.JStr? {
      var s := Get(flat, k).value.s;
      forall b | b in bs && MatchField(b.placeholder) == Some(k)
        ensures b.value == s
      {
        MatchingBindingValue(flat, b, k);
      }
      LastForUniform(bs, k, s);
      if Recoverable(k) {
        StringLeafBound(flat, k, s);
        MatchPlaceholder(k);
      }
    }
  }

  /** A visit of the inversion whose placeholder names `k` carries the string value of
      `k`. */
  lemma MatchingBindingValue(flat: Dict, b: Binding, k: string)
    requires DistinctKeys(flat)
    requires b in Bindings(ReverseMap(flat)) && MatchField(b.placeholder) == Some(k)
    ensures Get(flat, k) == Some(JStr(b.value))
  {
    var m := ReverseMap(flat);
    BindingsMembers(m, b);
    var i :| 0 <= i < |m| && b.value == m[i].key && b.placeholder in Visited(m[i].val);
    GetAt(m, i);
    ReverseMapGet(flat, b.value);
    var ys := PlaceholdersOf(flat, b.value);
    DedupFacts(ys);
    assert JStr(b.placeholder) in ys;
    PlaceholdersMembers(flat, b.value, JStr(b.placeholder));
    var j :| 0 <= j < |flat| && flat[j].val == JStr(b.value) && JStr(b.placeholder) == JStr(PlaceholderFor(flat[j].key));
    assert PlaceholderFor(flat[j].key)[1..] == flat[j].key;
    assert b.placeholder == PlaceholderFor(k) && PlaceholderFor(k)[1..] == k;
    GetEntry(flat, j, k);
  }

  /** A string leaf's placeholder is visited with the leaf's value. */
  lemma StringLeafBound(flat: Dict, k: string, s: string)
    requires DistinctKeys(flat) && Get(flat, k) == Some(JStr(s))
    ensures Binding(s, PlaceholderFor(k)) in Bindings(ReverseMap(flat))
  {
    var m := ReverseMap(flat);
    KeyIndexOf(flat, k);
    var j :| 0 <= j < |flat| && flat[j].key == k;
    GetEntry(flat, j, k);
    PlaceholdersMembers(flat, s, JStr(PlaceholderFor(k)));
    ReverseMapGet(flat, s);
    DedupFacts(PlaceholdersOf(flat, s));
    KeyIndexOf(m, s);
    var i :| 0 <= i < |m| && m[i].key == s;
    GetAt(m, i);
    assert PlaceholderFor(k) in Visited(m[i].val);
    BindingsMembers(m, Binding(s, PlaceholderFor(k)));
  }

  /** A visit that `LastFor` found. */
  lemma {:induction false} LastWitness(bs: seq<Binding>, field: string) returns (b: Binding)
    requires LastFor(bs, field).Some?
    ensures b in bs && MatchField(b.placeholder) == Some(field) && LastFor(bs, field) == Some(b.value)
    decreases |bs|
  {
    if LastFor(bs[1..], field).Some? {
      b := LastWitness(bs[1..], field);
    } else {
      b := bs[0];
    }
  }

  lemma {:induction false} KeyIndexOf(d: Dict, k: string)
    requires k in KeySet(d)
    ensures exists i :: 0 <= i < |d| && d[i].key == k
    decreases |d|
  {
    if d[0].key != k {
      KeyIndexOf(d[1..], k);
      var i :| 0 <= i < |d[1..]| && d[1..][i].key == k;
      assert d[i + 1].key == k;
    }
  }
}
