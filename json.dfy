/** Decoded JSON values as both the Python agent and the browser extension see them.
    Mappings are ordered association lists: Python dicts and JavaScript objects (with
    non-numeric keys) both enumerate their keys in insertion order, and an assignment to an
    existing key keeps the key where it was. */
module Json {
  import opened Wrappers

  datatype Json =
    | JNull
    | JBool(b: bool)
    | JNum(n: int)
    | JStr(s: string)
    | JArr(items: seq<Json>)
    | JObj(fields: seq<Field>)

  datatype Field = Field(key: string, val: Json)

  /** A mapping from string keys to values, in insertion order. */
  type Dict = seq<Field>

  /** Neither a mapping nor a sequence. */
  predicate IsScalar(j: Json) {
    !j.JArr? && !j.JObj?
  }

  function KeySet(d: Dict): set<string>
    decreases |d|
  {
    if d == [] then {} else {d[0].key} + KeySet(d[1..])
  }

  /** No key is bound twice. */
  predicate DistinctKeys(d: Dict)
    decreases |d|
  {
    d == [] || (d[0].key !in KeySet(d[1..]) && DistinctKeys(d[1..]))
  }

  lemma {:induction false} KeySetAppend(d: Dict, e: Dict)
    ensures KeySet(d + e) == KeySet(d) + KeySet(e)
    decreases |d|
  {
    if d == [] {
      assert d + e == e;
    } else {
      assert (d + e)[0] == d[0];
      assert (d + e)[1..] == d[1..] + e;
      KeySetAppend(d[1..], e);
    }
  }

  lemma {:induction false} KeyAt(d: Dict, i: nat)
    requires i < |d|
    ensures d[i].key in KeySet(d)
    decreases i
  {
    if i > 0 { KeyAt(d[1..], i - 1); }
  }

  /** Lookup of a key (`d.get(k)`); the first binding wins, and a mapping built by `Set`
      has only one. */
  function Get(d: Dict, k: string): (r: Option<Json>)
    ensures r.Some? <==> k in KeySet(d)
    decreases |d|
  {
    if d == [] then None
    else if d[0].key == k then Some(d[0].val)
    else Get(d[1..], k)
  }

  /** Assignment `d[k] = v`: an existing key keeps its position and takes the new value,
      a new key goes at the end. */
  function Set(d: Dict, k: string, v: Json): (r: Dict)
    ensures KeySet(r) == KeySet(d) + {k}
    ensures Get(r, k) == Some(v)
    ensures forall k' :: k' != k ==> Get(r, k') == Get(d, k')
    ensures k !in KeySet(d) ==> r == d + [Field(k, v)]
    ensures k in KeySet(d) ==> |r| == |d|
    ensures DistinctKeys(d) ==> DistinctKeys(r)
    decreases |d|
  {
    if d == [] then [Field(k, v)]
    else if d[0].key == k then [Field(k, v)] + d[1..]
    else
      var r := [d[0]] + Set(d[1..], k, v);
      assert r[1..] == Set(d[1..], k, v);
      r
  }

  /** `d.update(e)`: every binding of `e`, in order, assigned into `d`. */
  function Update(d: Dict, e: Dict): (r: Dict)
    ensures KeySet(r) == KeySet(d) + KeySet(e)
    ensures DistinctKeys(d) ==> DistinctKeys(r)
    ensures forall k :: k !in KeySet(e) ==> Get(r, k) == Get(d, k)
    decreases |e|
  {
    if e == [] then d else Update(Set(d, e[0].key, e[0].val), e[1..])
  }

  /** The later binding of a key wins in `Update`, so with distinct keys in `e` every key of
      `e` ends up with `e`'s value. */
  lemma {:induction false} UpdateGet(d: Dict, e: Dict, k: string)
    requires DistinctKeys(e)
    requires k in KeySet(e)
    ensures Get(Update(d, e), k) == Get(e, k)
    decreases |e|
  {
    if e[0].key != k {
      UpdateGet(Set(d, e[0].key, e[0].val), e[1..], k);
    }
  }

  /** Assigning a key the value it already has changes nothing. */
  lemma {:induction false} SetSame(d: Dict, k: string)
    requires k in KeySet(d)
    ensures Set(d, k, Get(d, k).value) == d
    decreases |d|
  {
    if d[0].key != k {
      SetSame(d[1..], k);
    }
  }

  /** Updating with fresh keys appends them in order. */
  lemma {:induction false} UpdateDisjoint(d: Dict, e: Dict)
    requires DistinctKeys(e) && KeySet(d) !! KeySet(e)
    ensures Update(d, e) == d + e
    decreases |e|
  {
    if e != [] {
      var k := e[0].key;
      assert KeySet(e) == {k} + KeySet(e[1..]);
      assert k !in KeySet(d) && k !in KeySet(e[1..]);
      var d' := d + [e[0]];
      assert Set(d, k, e[0].val) == d';
      KeySetAppend(d, [e[0]]);
      assert KeySet([e[0]]) == {k};
      UpdateDisjoint(d', e[1..]);
      assert Update(d, e) == Update(d', e[1..]);
      assert d' + e[1..] == d + e;
    }
  }

  lemma {:induction false} NotInKeySet(d: Dict, k: string)
    requires forall i :: 0 <= i < |d| ==> d[i].key != k
    ensures k !in KeySet(d)
    decreases |d|
  {
    if d != [] {
      forall i | 0 <= i < |d[1..]|
        ensures d[1..][i].key != k
      {
        assert d[1..][i] == d[i + 1];
      }
      NotInKeySet(d[1..], k);
    }
  }

  /** Keys that differ pairwise are distinct. */
  lemma {:induction false} DistinctKeysByIndex(d: Dict)
    requires forall i, j :: 0 <= i < j < |d| ==> d[i].key != d[j].key
    ensures DistinctKeys(d)
    decreases |d|
  {
    if d != [] {
      forall i | 0 <= i < |d[1..]|
        ensures d[1..][i].key != d[0].key
      {
        assert d[1..][i] == d[i + 1];
      }
      NotInKeySet(d[1..], d[0].key);
      forall i, j | 0 <= i < j < |d[1..]|
        ensures d[1..][i].key != d[1..][j].key
      {
        assert d[1..][i] == d[i + 1] && d[1..][j] == d[j + 1];
      }
      DistinctKeysByIndex(d[1..]);
    }
  }

  /** No value of `d` is a mapping or a sequence. */
  predicate AllScalar(d: Dict) {
    forall i :: 0 <= i < |d| ==> IsScalar(d[i].val)
  }

  lemma {:induction false} SetAllScalar(d: Dict, k: string, v: Json)
    requires AllScalar(d) && IsScalar(v)
    ensures AllScalar(Set(d, k, v))
    decreases |d|
  {
    if d != [] && d[0].key != k {
      assert AllScalar(d[1..]) by {
        forall i | 0 <= i < |d[1..]| ensures IsScalar(d[1..][i].val) {
          assert d[1..][i] == d[i + 1];
        }
      }
      SetAllScalar(d[1..], k, v);
      var r := Set(d, k, v);
      assert r == [d[0]] + Set(d[1..], k, v);
    }
  }

  lemma {:induction false} UpdateAllScalar(d: Dict, e: Dict)
    requires AllScalar(d) && AllScalar(e)
    ensures AllScalar(Update(d, e))
    decreases |e|
  {
    if e != [] {
      SetAllScalar(d, e[0].key, e[0].val);
      assert AllScalar(e[1..]) by {
        forall i | 0 <= i < |e[1..]| ensures IsScalar(e[1..][i].val) {
          assert e[1..][i] == e[i + 1];
        }
      }
      UpdateAllScalar(Set(d, e[0].key, e[0].val), e[1..]);
    }
  }

  /** Truthiness, which Python's `not x` / `if x` and JavaScript's `!x` agree on for JSON
      values, except that JavaScript treats an empty array or object as true. */
  predicate PyTruthy(j: Json) {
    match j
    case JNull => false
    case JBool(b) => b
    case JNum(n) => n != 0
    case JStr(s) => s != ""
    case JArr(items) => items != []
    case JObj(fields) => fields != []
  }

  predicate JsTruthy(j: Json) {
    match j
    case JNull => false
    case JBool(b) => b
    case JNum(n) => n != 0
    case JStr(s) => s != ""
    case JArr(_) => true
    case JObj(_) => true
  }
}
