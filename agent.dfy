/** Instruction post-processing in llm_agent.py: everything the agent does around the
    model call. The call itself, `json.loads` and the code-fence regular expression are
    parameters: the model's reply text, a decoding function (`None` for a decode error)
    and a function giving the fenced block's group when the pattern matches. */
module Agent {
  import opened Wrappers
  import opened Text
  import opened Json

  /** The Python exceptions that escape `ask`: only a JSON decode error is caught. */
  datatype PyError = KeyError(key: string) | AttributeError | TypeError | ValueError(message: string)

  datatype Result<T> = Ok(value: T) | Err(error: PyError)

  // ----- str() of a decoded value ------------------------------------------------------

  /** `repr` of a decoded value, with strings always in single quotes. */
  function PyRepr(j: Json): string
    decreases j
  {
    match j
    case JNull => "None"
    case JBool(b) => if b then "True" else "False"
    case JNum(n) => IntToString(n)
    case JStr(s) => "'" + s + "'"
    case JArr(items) => "[" + Join(", ", ReprAll(items)) + "]"
    case JObj(fields) => "{" + Join(", ", ReprFields(fields)) + "}"
  }

  function ReprAll(items: seq<Json>): (r: seq<string>)
    ensures |r| == |items|
    decreases items
  {
    if items == [] then [] else [PyRepr(items[0])] + ReprAll(items[1..])
  }

  function ReprFields(fs: seq<Field>): (r: seq<string>)
    ensures |r| == |fs|
    decreases fs
  {
    if fs == [] then [] else ["'" + fs[0].key + "': " + PyRepr(fs[0].val)] + ReprFields(fs[1..])
  }

  /** `str(j)`: a string is itself, anything else its `repr`. */
  function PyStr(j: Json): string {
    if j.JStr? then j.s else PyRepr(j)
  }

  /** `map(str, items)`. */
  function StrAll(items: seq<Json>): (r: seq<string>)
    ensures |r| == |items| && forall i :: 0 <= i < |items| ==> r[i] == PyStr(items[i])
  {
    if items == [] then [] else [PyStr(items[0])] + StrAll(items[1..])
  }

  /** The rendering of a list value in `_flatten` and `format_dict`. */
  function ListText(items: seq<Json>): string {
    Join(", ", StrAll(items))
  }

  // ----- extract_json_block ------------------------------------------------------------

  /** The characters Python's `str.strip()` removes. */
  predicate IsPySpace(c: char) {
    c == ' ' || ('\t' <= c <= '\r') || ('\U{1c}' <= c <= '\U{1f}') || c == '\U{85}' || c == '\U{a0}'
    || c == '\U{1680}' || ('\U{2000}' <= c <= '\U{200a}') || c == '\U{2028}' || c == '\U{2029}'
    || c == '\U{202f}' || c == '\U{205f}' || c == '\U{3000}'
  }

  /** How many whitespace characters `s` starts with. */
  function LeadingSpaces(s: string): (n: nat)
    ensures n <= |s| && (n == |s| || !IsPySpace(s[n]))
    ensures forall i :: 0 <= i < n ==> IsPySpace(s[i])
    decreases |s|
  {
    if s != [] && IsPySpace(s[0]) then
      var n := LeadingSpaces(s[1..]);
      assert forall i :: 1 <= i < n + 1 ==> s[i] == s[1..][i - 1];
      1 + n
    else 0
  }

  /** Where the whitespace `s` ends with begins. */
  function TrailingStart(s: string): (n: nat)
    ensures n <= |s| && (n == 0 || !IsPySpace(s[n - 1]))
    ensures forall i :: n <= i < |s| ==> IsPySpace(s[i])
    decreases |s|
  {
    if s != [] && IsPySpace(s[|s| - 1]) then
      var n := TrailingStart(s[..|s| - 1]);
      assert forall i :: n <= i < |s| - 1 ==> s[i] == s[..|s| - 1][i];
      n
    else |s|
  }

  /** `s.strip()`: the slice of `s` between its leading and its trailing whitespace. */
  function Strip(s: string): (r: string)
    ensures var i := LeadingSpaces(s);
            i + |r| <= |s| && r == s[i..i + |r|]
            && (forall m :: 0 <= m < i ==> IsPySpace(s[m]))
            && (forall m :: i + |r| <= m < |s| ==> IsPySpace(s[m]))
    ensures r == [] || (!IsPySpace(r[0]) && !IsPySpace(r[|r| - 1]))
  {
    var i := LeadingSpaces(s);
    var t := TrailingStart(s[i..]);
    StripEnds(s, i, t);
    s[i..i + t]
  }

  lemma StripEnds(s: string, i: nat, t: nat)
    requires i <= |s| && (i == |s| || !IsPySpace(s[i]))
    requires t <= |s| - i && (t == 0 || !IsPySpace(s[i..][t - 1]))
    requires forall m :: t <= m < |s| - i ==> IsPySpace(s[i..][m])
    ensures forall m :: i + t <= m < |s| ==> IsPySpace(s[m])
    ensures s[i..i + t] == [] || (!IsPySpace(s[i..i + t][0]) && !IsPySpace(s[i..i + t][t - 1]))
  {
    forall m | i + t <= m < |s|
      ensures IsPySpace(s[m])
    {
      assert s[m] == s[i..][m - i];
    }
    if t > 0 {
      assert s[i..i + t][t - 1] == s[i..][t - 1];
    }
  }

  /** Stripping twice is stripping once. */
  lemma StripIdempotent(s: string)
    ensures Strip(Strip(s)) == Strip(s)
  {
    StripTrimmed(Strip(s));
  }

  /** A string with no whitespace at either end is its own strip. */
  lemma StripTrimmed(s: string)
    requires s == [] || (!IsPySpace(s[0]) && !IsPySpace(s[|s| - 1]))
    ensures Strip(s) == s
  {
    assert LeadingSpaces(s) == 0;
    assert s[0..] == s;
    assert TrailingStart(s) == |s|;
  }

  /** `extract_json_block(text)`, given the first group of the fence pattern when it
      matches: the stripped group, or else the stripped text. */
  function ExtractJsonBlock(text: string, group: Option<string>): (r: string)
    ensures group.None? ==> r == Strip(text)
  {
    if group.Some? then Strip(group.value) else Strip(text)
  }

  /** The pattern's group runs from `{` to `}`, so stripping leaves it as it is. */
  lemma FencedBlockUnchanged(text: string, block: string)
    requires |block| >= 2 && block[0] == '{' && block[|block| - 1] == '}'
    ensures ExtractJsonBlock(text, Some(block)) == block
  {
    StripTrimmed(block);
  }

  // ----- _flatten ----------------------------------------------------------------------

  function NewKey(parent: string, k: string): string {
    if parent != "" then parent + "_" + k else k
  }

  /** `_flatten(d, parent_key)`: keys joined with `_`, nested mappings merged in with
      `update`, lists turned into their `", "`-joined string forms, other values kept. */
  function Flatten(d: Dict, parent: string): (r: Dict)
    ensures DistinctKeys(r)
    decreases d, 1
  {
    FlattenInto([], d, parent)
  }

  /** The loop of `_flatten` over the entries `fs`, adding to `items`. */
  function FlattenInto(items: Dict, fs: seq<Field>, parent: string): (r: Dict)
    ensures DistinctKeys(items) ==> DistinctKeys(r)
    decreases fs, 0
  {
    if fs == [] then items
    else
      var k := NewKey(parent, fs[0].key);
      var items' :=
        match fs[0].val
        case JObj(sub) => Update(items, Flatten(sub, k))
        case JArr(xs) => Set(items, k, JStr(ListText(xs)))
        case v => Set(items, k, v);
      FlattenInto(items', fs[1..], parent)
  }

  /** The keys `_flatten` produces, defined directly: one per entry that is not a mapping,
      and the keys of every nested mapping, under the joined prefix. */
  function LeafKeys(fs: seq<Field>, parent: string): set<string>
    decreases fs
  {
    if fs == [] then {}
    else
      var k := NewKey(parent, fs[0].key);
      (match fs[0].val
       case JObj(sub) => LeafKeys(sub, k)
       case _ => {k})
      + LeafKeys(fs[1..], parent)
  }

  lemma {:induction false} FlattenIntoKeys(items: Dict, fs: seq<Field>, parent: string)
    ensures KeySet(FlattenInto(items, fs, parent)) == KeySet(items) + LeafKeys(fs, parent)
    decreases fs
  {
    if fs != [] {
      var k := NewKey(parent, fs[0].key);
      var items' :=
        match fs[0].val
        case JObj(sub) => Update(items, Flatten(sub, k))
        case JArr(xs) => Set(items, k, JStr(ListText(xs)))
        case v => Set(items, k, v);
      match fs[0].val {
        case JObj(sub) => FlattenIntoKeys([], sub, k);
        case _ =>
      }
      FlattenIntoKeys(items', fs[1..], parent);
    }
  }

  /** The flattened keys are exactly the leaf keys; in particular an empty nested mapping
      contributes no key at all. */
  lemma FlattenKeys(d: Dict, parent: string)
    ensures KeySet(Flatten(d, parent)) == LeafKeys(d, parent)
  {
    FlattenIntoKeys([], d, parent);
  }

  /** The result of `_flatten` is one level deep: no value is a mapping or a list. */
  lemma {:induction false} FlattenIntoScalar(items: Dict, fs: seq<Field>, parent: string)
    requires AllScalar(items)
    ensures AllScalar(FlattenInto(items, fs, parent))
    decreases fs
  {
    if fs != [] {
      var k := NewKey(parent, fs[0].key);
      match fs[0].val {
        case JObj(sub) =>
          FlattenIntoScalar([], sub, k);
          UpdateAllScalar(items, Flatten(sub, k));
          FlattenIntoScalar(Update(items, Flatten(sub, k)), fs[1..], parent);
        case JArr(xs) =>
          SetAllScalar(items, k, JStr(ListText(xs)));
          FlattenIntoScalar(Set(items, k, JStr(ListText(xs))), fs[1..], parent);
        case v =>
          SetAllScalar(items, k, v);
          FlattenIntoScalar(Set(items, k, v), fs[1..], parent);
      }
    }
  }

  lemma FlattenIsFlat(d: Dict, parent: string)
    ensures AllScalar(Flatten(d, parent))
  {
    FlattenIntoScalar([], d, parent);
  }

  lemma {:induction false} FlattenIntoOfScalars(items: Dict, fs: seq<Field>)
    requires AllScalar(fs) && DistinctKeys(fs) && KeySet(items) !! KeySet(fs)
    ensures FlattenInto(items, fs, "") == items + fs
    decreases fs
  {
    if fs != [] {
      var next := items + [fs[0]];
      calc {
        FlattenInto(items, fs, "");
        == { FreshScalarStep(items, fs); }
        FlattenInto(next, fs[1..], "");
        == { FreshScalarStep(items, fs); FlattenIntoOfScalars(next, fs[1..]); }
        next + fs[1..];
        items + fs;
      }
    }
  }

  /** One step of the loop over distinct, fresh, scalar entries. */
  lemma FreshScalarStep(items: Dict, fs: seq<Field>)
    requires fs != [] && AllScalar(fs) && DistinctKeys(fs) && KeySet(items) !! KeySet(fs)
    ensures FlattenInto(items, fs, "") == FlattenInto(items + [fs[0]], fs[1..], "")
    ensures AllScalar(fs[1..]) && DistinctKeys(fs[1..]) && KeySet(items + [fs[0]]) !! KeySet(fs[1..])
  {
    FlattenIntoScalarStep(items, fs, "");
    FreshScalarEntry(items, fs);
  }

  /** Assigning the first of distinct, fresh, scalar entries appends it, and the rest are
      still distinct, fresh and scalar. */
  lemma FreshScalarEntry(items: Dict, fs: seq<Field>)
    requires fs != [] && AllScalar(fs) && DistinctKeys(fs) && KeySet(items) !! KeySet(fs)
    ensures NewKey("", fs[0].key) == fs[0].key
    ensures Set(items, fs[0].key, fs[0].val) == items + [fs[0]]
    ensures AllScalar(fs[1..]) && DistinctKeys(fs[1..]) && KeySet(items + [fs[0]]) !! KeySet(fs[1..])
  {
    var k := fs[0].key;
    assert KeySet(fs) == {k} + KeySet(fs[1..]);
    KeySetAppend(items, [fs[0]]);
    assert KeySet([fs[0]]) == {k};
    assert AllScalar(fs[1..]) by {
      forall i | 0 <= i < |fs[1..]| ensures IsScalar(fs[1..][i].val) {
        assert fs[1..][i] == fs[i + 1];
      }
    }
  }

  /** An entry that is neither a mapping nor a list is assigned as it is. */
  lemma FlattenIntoScalarStep(items: Dict, fs: seq<Field>, parent: string)
    requires fs != [] && IsScalar(fs[0].val)
    ensures FlattenInto(items, fs, parent)
            == FlattenInto(Set(items, NewKey(parent, fs[0].key), fs[0].val), fs[1..], parent)
  {
  }

  /** A mapping without nested mappings or lists flattens to itself. */
  lemma FlattenOfFlat(d: Dict)
    requires AllScalar(d) && DistinctKeys(d)
    ensures Flatten(d, "") == d
  {
    FlattenIntoOfScalars([], d);
  }

  /** A nested mapping under key `a` contributes its own flattening with prefix `a`, so
      `{"a": {"b": x}}` gives `{"a_b": x}`. */
  lemma FlattenNested(parent: string, a: string, sub: Dict)
    ensures Flatten([Field(a, JObj(sub))], parent) == Flatten(sub, NewKey(parent, a))
  {
    var e := Flatten(sub, NewKey(parent, a));
    var d := [Field(a, JObj(sub))];
    assert d[1..] == [];
    assert FlattenInto([], d, parent) == FlattenInto(Update([], e), [], parent);
    UpdateDisjoint([], e);
    assert [] + e == e;
  }

  lemma FlattenNestedExample(x: Json)
    requires IsScalar(x)
    ensures Flatten([Field("a", JObj([Field("b", x)]))], "") == [Field("a_b", x)]
  {
    FlattenNested("", "a", [Field("b", x)]);
    var d := [Field("b", x)];
    assert d[1..] == [];
    assert FlattenInto([], d, "a") == FlattenInto(Set([], "a_b", x), [], "a");
  }

  /** A list value under key `k` is assigned, at its place in the loop, as the `", "`-join
      of its elements' `str` forms under the joined key. */
  lemma FlattenListStep(items: Dict, k: string, xs: seq<Json>, rest: seq<Field>, parent: string)
    ensures FlattenInto(items, [Field(k, JArr(xs))] + rest, parent)
         == FlattenInto(Set(items, NewKey(parent, k), JStr(ListText(xs))), rest, parent)
  {
    var fs := [Field(k, JArr(xs))] + rest;
    assert fs[0] == Field(k, JArr(xs)) && fs[1..] == rest;
  }

  /** A list on its own flattens to one string entry. */
  lemma FlattenList(parent: string, k: string, xs: seq<Json>)
    ensures Flatten([Field(k, JArr(xs))], parent) == [Field(NewKey(parent, k), JStr(ListText(xs)))]
  {
    FlattenListStep([], k, xs, [], parent);
    assert [Field(k, JArr(xs))] + [] == [Field(k, JArr(xs))];
  }

  // ----- _interpolate ------------------------------------------------------------------

  /** `resolve(val)`: a string starting with `$` is looked up without its `$`; anything
      else, or a name that is not there, stays as it is. */
  function Resolve(val: Json, flat: Dict): Json {
    if val.JStr? && StartsWith(val.s, "$") then Get(flat, val.s[1..]).GetOr(val) else val
  }

  /** One iteration of the `_interpolate` loop. For a mapping with a `text` field that
      field is resolved in place. For any other element, `"text" in instr` is a substring
      or membership test (and a `TypeError` on a number, a boolean or `None`); when it
      succeeds, the assignment that follows is a `TypeError`. */
  function InterpolateOne(instr: Json, flat: Dict): Result<Json> {
    match instr
    case JObj(fs) =>
      if "text" in KeySet(fs) then Ok(JObj(Set(fs, "text", Resolve(Get(fs, "text").value, flat)))) else Ok(instr)
    case JStr(s) => if Contains(s, "text") then Err(TypeError) else Ok(instr)
    case JArr(items) => if JStr("text") in items then Err(TypeError) else Ok(instr)
    case _ => Err(TypeError)
  }

  /** The number of leading elements that go through without an exception. */
  function OkPrefix(items: seq<Json>, flat: Dict): (k: nat)
    ensures k <= |items|
    ensures forall i :: 0 <= i < k ==> InterpolateOne(items[i], flat).Ok?
    ensures k < |items| ==> InterpolateOne(items[k], flat).Err?
  {
    if items == [] || InterpolateOne(items[0], flat).Err? then 0 else 1 + OkPrefix(items[1..], flat)
  }

  /** The loop over the whole list: every element in turn, stopping at the first
      exception. */
  function InterpolateAll(items: seq<Json>, flat: Dict): (r: Result<seq<Json>>)
    ensures r.Ok? <==> OkPrefix(items, flat) == |items|
    ensures r.Ok? ==> |r.value| == |items| && forall i :: 0 <= i < |items| ==> InterpolateOne(items[i], flat) == Ok(r.value[i])
    ensures r.Err? ==> InterpolateOne(items[OkPrefix(items, flat)], flat) == Err(r.error)
  {
    if items == [] then Ok([])
    else
      match InterpolateOne(items[0], flat)
      case Err(e) => Err(e)
      case Ok(x) =>
        match InterpolateAll(items[1..], flat)
        case Err(e) => Err(e)
        case Ok(xs) => Ok([x] + xs)
  }

  /** The names `_interpolate` can resolve: the flattened `applicant_data`, nothing when the
      context has none, and an `AttributeError` when it is not a mapping. */
  function ApplicantFlat(context: Dict): Result<Dict> {
    match Get(context, "applicant_data")
    case None => Ok([])
    case Some(JObj(d)) => Ok(Flatten(d, ""))
    case Some(_) => Err(AttributeError)
  }

  function InterpolateWith(items: seq<Json>, context: Dict): Result<seq<Json>> {
    var flat := ApplicantFlat(context);
    if flat.Err? then Err(flat.error) else InterpolateAll(items, flat.value)
  }

  /** An instruction's `text` is its only field that can change; without `text`, or with a
      `text` that is not a string starting with `$`, the instruction is unchanged. */
  lemma InterpolateOnlyText(fs: Dict, flat: Dict)
    ensures var r := InterpolateOne(JObj(fs), flat);
            r.Ok? && r.value.JObj? && KeySet(r.value.fields) == KeySet(fs)
            && forall k :: k != "text" ==> Get(r.value.fields, k) == Get(fs, k)
    ensures (match Get(fs, "text")
             case None => true
             case Some(t) => !(t.JStr? && StartsWith(t.s, "$")))
            ==> InterpolateOne(JObj(fs), flat) == Ok(JObj(fs))
  {
    if "text" in KeySet(fs) {
      SetSame(fs, "text");
    }
  }

  /** A `$name` text is replaced by the flattened value of `name` when there is one, and
      otherwise stays literal. */
  lemma InterpolateReplaces(fs: Dict, flat: Dict, name: string)
    requires Get(fs, "text") == Some(JStr("$" + name))
    ensures var r := InterpolateOne(JObj(fs), flat).value.fields;
            Get(r, "text") == Some(if name in KeySet(flat) then Get(flat, name).value else JStr("$" + name))
  {
    assert ("$" + name)[1..] == name;
  }

  /** The contexts main.py builds for the login and the search agents. */
  function LoginContext(site: string, credentials: Dict): Dict {
    [Field("site", JStr(site)), Field("phase", JStr("login")), Field("job_seeker_credentials", JObj(credentials))]
  }

  function SearchContext(preferences: Dict): Dict {
    [Field("phase", JStr("search")), Field("job_seeker_preferences", JObj(preferences))]
  }

  /** Without `applicant_data` nothing is ever replaced: in the login and search contexts
      every `$placeholder` stays literal and every instruction mapping comes back as it
      was. */
  lemma {:induction false} NoApplicantDataNoReplacement(items: seq<Json>, context: Dict)
    requires "applicant_data" !in KeySet(context)
    requires forall i :: 0 <= i < |items| ==> items[i].JObj?
    ensures InterpolateWith(items, context) == Ok(items)
    decreases |items|
  {
    if items != [] {
      InterpolateOnlyText(items[0].fields, []);
      if "text" in KeySet(items[0].fields) {
        SetSame(items[0].fields, "text");
      }
      NoApplicantDataNoReplacement(items[1..], context);
      assert [items[0]] + items[1..] == items;
    }
  }

  lemma LoginAndSearchKeepPlaceholders(site: string, credentials: Dict, preferences: Dict)
    ensures "applicant_data" !in KeySet(LoginContext(site, credentials))
    ensures "applicant_data" !in KeySet(SearchContext(preferences))
  {
    var l := LoginContext(site, credentials);
    assert KeySet(l[2..]) == {"job_seeker_credentials"} by {
      assert l[2..][1..] == [];
    }
    assert l[1..][1..] == l[2..];
    assert KeySet(l[1..]) == {"phase", "job_seeker_credentials"};
    assert KeySet(l) == {"site", "phase", "job_seeker_credentials"};
    var s := SearchContext(preferences);
    assert KeySet(s[1..]) == {"job_seeker_preferences"} by {
      assert s[1..][1..] == [];
    }
    assert KeySet(s) == {"phase", "job_seeker_preferences"};
  }

  /** `_interpolate(instructions, context)` on the list in place: the names are flattened
      once, then each element in turn is rewritten; an exception leaves the elements from
      the failing one on untouched. */
  method Interpolate(instructions: array<Json>, context: Dict) returns (err: Option<PyError>)
    modifies instructions
    ensures var spec := InterpolateWith(old(instructions[..]), context);
            (err.None? <==> spec.Ok?)
            && (err.None? ==> instructions[..] == spec.value)
            && (err.Some? ==> err.value == spec.error)
    ensures err.Some? && ApplicantFlat(context).Err? ==> instructions[..] == old(instructions[..])
    ensures err.Some? && ApplicantFlat(context).Ok? ==>
              var flat := ApplicantFlat(context).value;
              var k := OkPrefix(old(instructions[..]), flat);
              instructions[k..] == old(instructions[k..])
              && forall i :: 0 <= i < k ==> InterpolateOne(old(instructions[i]), flat) == Ok(instructions[i])
  {
    var flat := ApplicantFlat(context);
    if flat.Err? {
      return Some(flat.error);
    }
    ghost var orig := instructions[..];
    for i := 0 to instructions.Length
      invariant instructions[i..] == orig[i..]
      invariant forall j :: 0 <= j < i ==> InterpolateOne(orig[j], flat.value) == Ok(instructions[j])
      invariant OkPrefix(orig, flat.value) >= i
    {
      var r := InterpolateOne(instructions[i], flat.value);
      assert instructions[i] == orig[i];
      if r.Err? {
        assert OkPrefix(orig, flat.value) == i;
        return Some(r.error);
      }
      instructions[i] := r.value;
      assert instructions[i + 1..] == orig[i + 1..];
    }
    assert instructions[..] == InterpolateAll(orig, flat.value).value;
    return None;
  }

  // ----- format_dict -------------------------------------------------------------------

  function Indent(n: nat): string {
    Repeat("  ", n)
  }

  /** `format_dict(name, data, indent)`: a header line, then one line (or one nested
      block) per entry, joined with newlines. */
  function FormatDict(name: string, data: Dict, indent: nat): string
    decreases data, 1
  {
    Join("\n", [Indent(indent) + name + ":"] + FormatEntries(data, indent))
  }

  /** The text of each entry of a mapping rendered at level `indent`. */
  function FormatEntries(fs: seq<Field>, indent: nat): (r: seq<string>)
    ensures |r| == |fs|
    decreases fs, 0
  {
    if fs == [] then []
    else
      var k := fs[0].key;
      var entry :=
        match fs[0].val
        case JObj(sub) => FormatDict(k, sub, indent + 1)
        case JArr(xs) => Indent(indent + 1) + k + ": " + ListText(xs)
        case v => Indent(indent + 1) + k + ": " + PyStr(v);
      [entry] + FormatEntries(fs[1..], indent)
  }

  /** The rendering opens with the name at the given indentation. */
  lemma FormatDictHeader(name: string, data: Dict, indent: nat)
    ensures StartsWith(FormatDict(name, data, indent), Indent(indent) + name + ":")
  {
    JoinFirst("\n", [Indent(indent) + name + ":"] + FormatEntries(data, indent));
  }

  /** Every entry is rendered one level deeper than its mapping's header, beginning with its
      key and a colon; a nested mapping's entries one level deeper again. */
  lemma {:induction false} FormatEntriesIndented(fs: seq<Field>, indent: nat)
    ensures var lines := FormatEntries(fs, indent);
            forall i :: 0 <= i < |fs| ==> StartsWith(lines[i], Indent(indent + 1) + fs[i].key + ":")
    decreases fs
  {
    if fs != [] {
      var lines := FormatEntries(fs, indent);
      var rest := FormatEntries(fs[1..], indent);
      FormatEntryHead(fs, indent);
      FormatEntriesIndented(fs[1..], indent);
      assert lines == [lines[0]] + rest;
      forall i | 0 <= i < |fs| ensures StartsWith(lines[i], Indent(indent + 1) + fs[i].key + ":") {
        if i > 0 {
          assert lines[i] == rest[i - 1] && fs[i] == fs[1..][i - 1];
        }
      }
    }
  }

  /** The first line of an entry opens with its key and a colon. */
  lemma FormatEntryHead(fs: seq<Field>, indent: nat)
    requires fs != []
    ensures StartsWith(FormatEntries(fs, indent)[0], Indent(indent + 1) + fs[0].key + ":")
  {
    var lines := FormatEntries(fs, indent);
    var k := fs[0].key;
    match fs[0].val {
      case JObj(sub) => FormatDictHeader(k, sub, indent + 1);
      case JArr(xs) =>
        assert lines[0] == (Indent(indent + 1) + k + ":") + " " + ListText(xs);
      case v =>
        assert lines[0] == (Indent(indent + 1) + k + ":") + " " + PyStr(v);
    }
  }

  /** An empty mapping renders as its header alone. */
  lemma FormatEmpty(name: string, indent: nat)
    ensures FormatDict(name, [], indent) == Indent(indent) + name + ":"
  {
  }

  // ----- ask ---------------------------------------------------------------------------

  /** `context[key]`. */
  function Lookup(context: Dict, key: string): Result<Json> {
    match Get(context, key)
    case None => Err(KeyError(key))
    case Some(v) => Ok(v)
  }

  /** `format_dict(name, v)` on a value that must be a mapping (its `.items()` is called). */
  function Section(name: string, v: Json): Result<string> {
    if v.JObj? then Ok(FormatDict(name, v.fields, 0)) else Err(AttributeError)
  }

  const LoginIntro: string := "You are to log into the following website : "
  const LoginMiddle: string := " on behalf of the applicant, and you the applicant's credentials can be looked up from the following"

  /** The phase dispatch of `ask`: the context text for a known phase, `None` for any other
      phase, and the `KeyError` or `AttributeError` of a missing or malformed entry. */
  function ContextText(context: Dict): Result<Option<string>> {
    var phase := Lookup(context, "phase");
    if phase.Err? then Err(phase.error)
    else if phase.value == JStr("login") then
      var site := Lookup(context, "site");
      if site.Err? then Err(site.error) else
      var creds := Lookup(context, "job_seeker_credentials");
      if creds.Err? then Err(creds.error) else
      var text := Section("Job Seeker Credentials", creds.value);
      if text.Err? then Err(text.error) else
      Ok(Some(LoginIntro + PyStr(site.value) + LoginMiddle + text.value))
    else if phase.value == JStr("application") then
      var prefs := Lookup(context, "applicant_preferences");
      if prefs.Err? then Err(prefs.error) else
      var prefsText := Section("Applicant Preferences", prefs.value);
      if prefsText.Err? then Err(prefsText.error) else
      var data := Lookup(context, "applicant_data");
      if data.Err? then Err(data.error) else
      var dataText := Section("Applicant Data", data.value);
      if dataText.Err? then Err(dataText.error) else
      Ok(Some(prefsText.value + "\n" + dataText.value))
    else if phase.value == JStr("search") then
      var prefs := Lookup(context, "job_seeker_preferences");
      if prefs.Err? then Err(prefs.error) else
      var text := Section("Job Seeker Preferences", prefs.value);
      if text.Err? then Err(text.error) else
      Ok(Some(text.value))
    else Ok(None)
  }

  predicate KnownPhase(phase: Json) {
    phase == JStr("login") || phase == JStr("application") || phase == JStr("search")
  }

  /** A context without `phase` raises `KeyError`; an unknown phase gives no context text
      and so no instructions. */
  lemma PhaseDispatch(context: Dict)
    ensures "phase" !in KeySet(context) ==> ContextText(context) == Err(KeyError("phase"))
    ensures "phase" in KeySet(context) && !KnownPhase(Get(context, "phase").value) ==> ContextText(context) == Ok(None)
    ensures "phase" in KeySet(context) && KnownPhase(Get(context, "phase").value) ==> !ContextText(context).Ok? || ContextText(context).value.Some?
  {
  }

  const HtmlLimit: nat := 5000
  const PageHeader: string := "Current page HTML content:\n"
  const ContextHeader: string := "\nContext: "

  /** The page text a prompt carries: its first `HtmlLimit` characters. */
  function Truncated(html: string): (r: string)
    ensures |r| <= HtmlLimit && StartsWith(html, r)
    ensures |html| <= HtmlLimit ==> r == html
  {
    if |html| <= HtmlLimit then html else html[..HtmlLimit]
  }

  function PromptContent(html: string, ctx: string): string {
    PageHeader + Truncated(html) + ContextHeader + ctx
  }

  /** The user message of `ask`. */
  function PromptMessage(html: string, ctx: string): Json {
    JObj([Field("role", JStr("applicant")), Field("content", JStr(PromptContent(html, ctx)))])
  }

  /** Only the first 5000 characters of the page reach the prompt: what follows them makes
      no difference, and a page that fits is carried whole. */
  lemma PromptIgnoresTail(html: string, tail: string, ctx: string)
    requires |html| >= HtmlLimit
    ensures PromptContent(html + tail, ctx) == PromptContent(html, ctx)
  {
    assert (html + tail)[..HtmlLimit] == html[..HtmlLimit];
  }

  lemma PromptBound(html: string, ctx: string)
    ensures |PromptContent(html, ctx)| <= |PageHeader| + HtmlLimit + |ContextHeader| + |ctx|
    ensures |html| <= HtmlLimit ==> PromptContent(html, ctx) == PageHeader + html + ContextHeader + ctx
  {
  }

  /** The shape check after decoding: an object becomes a one-element list, a list is kept,
      anything else (or a decode error) gives `None`. */
  function Normalise(decoded: Option<Json>): (r: Option<seq<Json>>)
    ensures r.Some? <==> decoded.Some? && !IsScalar(decoded.value)
    ensures r.Some? && decoded.value.JObj? ==> r.value == [decoded.value]
    ensures r.Some? && decoded.value.JArr? ==> r.value == decoded.value.items
  {
    match decoded
    case Some(JObj(_)) => Some([decoded.value])
    case Some(JArr(items)) => Some(items)
    case _ => None
  }

  const Providers: set<string> := {"ollama", "openai", "anthropic"}

  /** What `ask` returns: a list of instructions, `None`, or an exception it lets escape. */
  datatype AskResult = Instructions(items: seq<Json>) | NoInstructions | Raised(error: PyError)

  /** The outcome of `ask` for a context and the model's reply text. */
  function AskOutcome(provider: string, context: Dict, reply: string,
                      fence: string -> Option<string>, loads: string -> Option<Json>): AskResult
  {
    var ctx := ContextText(context);
    if ctx.Err? then Raised(ctx.error)
    else if ctx.value.None? then NoInstructions
    else if provider !in Providers then Raised(ValueError("Unsupported provider: " + provider))
    else
      var decoded := Normalise(loads(ExtractJsonBlock(reply, fence(reply))));
      if decoded.None? then NoInstructions
      else
        var r := InterpolateWith(decoded.value, context);
        if r.Err? then Raised(r.error) else Instructions(r.value)
  }

  /** With a known phase and a supported provider, a decoded object gives exactly one
      instruction, a decoded list as many as it has elements, and anything else none. */
  lemma AskShapes(provider: string, context: Dict, reply: string,
                  fence: string -> Option<string>, loads: string -> Option<Json>)
    requires ContextText(context).Ok? && ContextText(context).value.Some? && provider in Providers
    ensures var decoded := loads(ExtractJsonBlock(reply, fence(reply)));
            var r := AskOutcome(provider, context, reply, fence, loads);
            (decoded.Some? && decoded.value.JObj? ==> (r.Instructions? ==> |r.items| == 1))
            && (decoded.Some? && decoded.value.JArr? ==> (r.Instructions? ==> |r.items| == |decoded.value.items|))
            && (decoded.None? || IsScalar(decoded.value) ==> r == NoInstructions)
  {
  }

  /** An unknown phase gives `None` whatever the provider or the reply. */
  lemma AskUnknownPhase(provider: string, context: Dict, reply: string,
                        fence: string -> Option<string>, loads: string -> Option<Json>)
    requires "phase" in KeySet(context) && !KnownPhase(Get(context, "phase").value)
    ensures AskOutcome(provider, context, reply, fence, loads) == NoInstructions
  {
    PhaseDispatch(context);
  }

  /** One agent per phase; the conversation is reset to the system prompt and the current
      prompt on every `ask`. */
  class LlmAgent {
    const provider: string
    const systemPrompt: Json
    var messages: seq<Json>

    constructor (provider: string, systemPrompt: Json)
      ensures this.provider == provider && this.systemPrompt == systemPrompt
      ensures messages == [systemPrompt]
    {
      this.provider := provider;
      this.systemPrompt := systemPrompt;
      messages := [systemPrompt];
    }

    /** `ask(html, context)`, with the model's reply text given. */
    method Ask(html: string, context: Dict, reply: string,
               fence: string -> Option<string>, loads: string -> Option<Json>) returns (r: AskResult)
      modifies this
      ensures r == AskOutcome(provider, context, reply, fence, loads)
      ensures var ctx := ContextText(context);
              messages == if ctx.Ok? && ctx.value.Some? then [systemPrompt, PromptMessage(html, ctx.value.value)]
                          else old(messages)
    {
      var ctx := ContextText(context);
      if ctx.Err? {
        return Raised(ctx.error);
      }
      if ctx.value.None? {
        return NoInstructions;
      }
      messages := [systemPrompt, PromptMessage(html, ctx.value.value)];
      if provider !in Providers {
        return Raised(ValueError("Unsupported provider: " + provider));
      }
      var decoded := Normalise(loads(ExtractJsonBlock(reply, fence(reply))));
      if decoded.None? {
        return NoInstructions;
      }
      var items := decoded.value;
      var instructions := new Json[|items|](i requires 0 <= i < |items| => items[i]);
      assert instructions[..] == items;
      var err := Interpolate(instructions, context);
      if err.Some? {
        return Raised(err.value);
      }
      return Instructions(instructions[..]);
    }
  }
}
