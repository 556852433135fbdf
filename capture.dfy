/** The capture extension's session state: the actions recorded while the user works
    through a page, the page records they are grouped into, the reverse value map, and
    the per-phase applicant file exported when the capture stops. DOM lookups, timers and
    downloads are replaced by parameters and results. */
module Capture {
  import opened Wrappers
  import opened Json
  import opened FlatKeys
  import opened Reverse
  import opened KeyNames

  /** A recorded action: `{action: "click", id}`, `{action: "fill", id, value}` or
      `{action: "intervene", message}`. */
  datatype Action = Click(id: string) | Fill(id: string, value: Json) | Intervene(message: string)

  const INTERVENE_MESSAGE: string := "manual intervention needed"

  /** One entry of the exported `pages` list. */
  datatype Page = Page(interactables: seq<Json>, phase: Option<string>, scrollY: int, actions: seq<Action>)

  /** A downloaded file: its name and its JSON content. */
  datatype Export = Export(fileName: string, content: Json)

  // ---------------------------------------------------------------------------------
  // Phases
  // ---------------------------------------------------------------------------------

  /** `phaseToFile` in `buildReverseMap`. */
  function PhaseFile(phase: string): Option<string> {
    if phase == "signin" then Some("applicant_credentials.json")
    else if phase == "search" then Some("applicant_preferences.json")
    else if phase == "application" then Some("applicant_data.json")
    else None
  }

  /** `phaseToPrefix` in `generatePhaseJsonFilesFromReverseMap`. */
  function PhaseSuffix(phase: string): Option<string> {
    if phase == "signin" then Some("credentials")
    else if phase == "search" then Some("preferences")
    else if phase == "application" then Some("data")
    else None
  }

  /** A phase exports exactly when it loads, and under the name of the file it loaded. */
  lemma PhaseNames(phase: string)
    ensures PhaseFile(phase).Some? <==> PhaseSuffix(phase).Some?
    ensures PhaseSuffix(phase).Some? ==> PhaseFile(phase) == Some("applicant_" + PhaseSuffix(phase).value + ".json")
  {
    assert "applicant_" + "credentials" + ".json" == "applicant_credentials.json";
    assert "applicant_" + "preferences" + ".json" == "applicant_preferences.json";
    assert "applicant_" + "data" + ".json" == "applicant_data.json";
  }

  /** The applicant file the capture writes for `phase` from the reverse map `m`: none for
      an unknown phase, and none when `unflattenObject` throws, which ends
      `generatePhaseJsonFilesFromReverseMap` before its download. */
  function PhaseExport(phase: Option<string>, m: Dict): Option<Export> {
    if phase.None? || PhaseSuffix(phase.value).None? then None
    else match Unflatten(Invert(m))
      case None => None
      case Some(nested) => Some(Export("applicant_" + PhaseSuffix(phase.value).value + ".json", nested))
  }

  /** The reverse map `buildReverseMap` leaves, given the files bundled with the
      extension by name: an unknown phase, a file that cannot be loaded, or a file on
      which `flattenObject` throws leaves it as it was reset, empty. */
  function LoadedReverseMap(phase: string, dataFiles: map<string, Json>): Dict {
    match PhaseFile(phase)
    case None => []
    case Some(name) =>
      if name !in dataFiles || Shadowed(dataFiles[name]) then [] else ReverseMap(Flatten(dataFiles[name]))
  }

  /** A capture with no typed inputs writes back, under each recoverable key of the flat
      record, the string value the loaded file had there, and nothing that disagrees with
      the file. */
  lemma ExportAgreesWithFile(phase: string, dataFiles: map<string, Json>, k: string)
    requires PhaseFile(phase).Some? && PhaseFile(phase).value in dataFiles
    requires RoundTrips(dataFiles[PhaseFile(phase).value])
    ensures var flat := Flatten(dataFiles[PhaseFile(phase).value]);
            var back := Invert(LoadedReverseMap(phase, dataFiles));
            (Get(back, k).Some? ==> Get(back, k) == Get(flat, k))
            && (Recoverable(k) && Get(flat, k).Some? && Get(flat, k).value.JStr? ==> Get(back, k) == Get(flat, k))
  {
    var o := dataFiles[PhaseFile(phase).value];
    FieldsNotShadowed(o.fields);
    FlattenIsKeyedLeaves(o);
    InvertReverseMap(Flatten(o), k);
  }

  /** A file on which `flattenObject` throws leaves the reverse map as it was reset, and a
      capture with no typed inputs then exports `{}` under the phase's file name. */
  lemma ShadowedFileExportsEmpty(phase: string, dataFiles: map<string, Json>)
    requires PhaseFile(phase).Some? && PhaseFile(phase).value in dataFiles
    requires Shadowed(dataFiles[PhaseFile(phase).value])
    ensures LoadedReverseMap(phase, dataFiles) == []
    ensures PhaseExport(Some(phase), LoadedReverseMap(phase, dataFiles))
            == Some(Export(PhaseFile(phase).value, JObj([])))
  {
    PhaseNames(phase);
    assert Invert([]) == [];
    assert Unflatten([]) == Some(JObj([]));
  }

  // ---------------------------------------------------------------------------------
  // Fill deduplication in pushCurrentPageCapture
  // ---------------------------------------------------------------------------------

  predicate FillFor(a: Action, id: string) {
    a.Fill? && a.id == id
  }

  /** An entry of `dedupedFills`: an element id and its fill. */
  datatype Slot = Slot(id: string, act: Action)

  predicate HasId(slots: seq<Slot>, id: string) {
    exists i :: 0 <= i < |slots| && slots[i].id == id
  }

  predicate DistinctIds(slots: seq<Slot>) {
    forall i, j :: 0 <= i < j < |slots| ==> slots[i].id != slots[j].id
  }

  /** `dedupedFills[id] = act`: an existing entry keeps its place, a new one goes last. */
  function PutSlot(slots: seq<Slot>, id: string, act: Action): (r: seq<Slot>)
    ensures !HasId(slots, id) ==> r == slots + [Slot(id, act)]
    ensures HasId(slots, id) && DistinctIds(slots) ==>
              |r| == |slots| && forall i :: 0 <= i < |r| ==> r[i] == if slots[i].id == id then Slot(id, act) else slots[i]
    decreases |slots|
  {
    if slots == [] then [Slot(id, act)]
    else if slots[0].id == id then [Slot(id, act)] + slots[1..]
    else
      assert HasId(slots, id) ==> HasId(slots[1..], id) by {
        if HasId(slots, id) {
          var i :| 0 <= i < |slots| && slots[i].id == id;
          assert slots[1..][i - 1] == slots[i];
        }
      }
      assert !HasId(slots, id) ==> !HasId(slots[1..], id) by {
        if HasId(slots[1..], id) {
          var i :| 0 <= i < |slots[1..]| && slots[1..][i].id == id;
          assert slots[i + 1] == slots[1..][i];
        }
      }
      [slots[0]] + PutSlot(slots[1..], id, act)
  }

  /** The actions the loop keeps in `finalActions`: every non-fill, in order. */
  function Kept(raw: seq<Action>): seq<Action>
    decreases |raw|
  {
    if raw == [] then []
    else
      var a := raw[|raw| - 1];
      Kept(raw[..|raw| - 1]) + (if a.Fill? then [] else [a])
  }

  /** The entries of `dedupedFills` after the loop, in insertion order. */
  function Slots(raw: seq<Action>): seq<Slot>
    decreases |raw|
  {
    if raw == [] then []
    else
      var a := raw[|raw| - 1];
      var before := Slots(raw[..|raw| - 1]);
      if a.Fill? then PutSlot(before, a.id, a) else before
  }

  function SlotActions(slots: seq<Slot>): seq<Action> {
    seq(|slots|, i requires 0 <= i < |slots| => slots[i].act)
  }

  /** The `actions` of the page record built from `raw`. */
  function PageActions(raw: seq<Action>): seq<Action> {
    Kept(raw) + SlotActions(Slots(raw))
  }

  /** The last fill of element `id`. */
  function LastFill(raw: seq<Action>, id: string): (r: Option<Action>)
    ensures r.Some? ==> FillFor(r.value, id)
    decreases |raw|
  {
    if raw == [] then None
    else if FillFor(raw[|raw| - 1], id) then Some(raw[|raw| - 1])
    else LastFill(raw[..|raw| - 1], id)
  }

  /** The position of the first fill of element `id`. */
  function FirstFill(raw: seq<Action>, id: string): (r: Option<nat>)
    ensures r.Some? ==> r.value < |raw|
    decreases |raw|
  {
    if raw == [] then None
    else
      var earlier := FirstFill(raw[..|raw| - 1], id);
      if earlier.Some? then earlier
      else if FillFor(raw[|raw| - 1], id) then Some(|raw| - 1)
      else None
  }

  /** `LastFill` is the fill of `id` after which no other fill of `id` comes. */
  lemma {:induction false} LastFillIsLast(raw: seq<Action>, id: string)
    ensures LastFill(raw, id).None? <==> forall i :: 0 <= i < |raw| ==> !FillFor(raw[i], id)
    ensures LastFill(raw, id).Some? ==>
              exists i :: 0 <= i < |raw| && raw[i] == LastFill(raw, id).value
                          && forall j :: i < j < |raw| ==> !FillFor(raw[j], id)
    decreases |raw|
  {
    if raw != [] {
      var n := |raw| - 1;
      var p := raw[..n];
      LastFillIsLast(p, id);
      if !FillFor(raw[n], id) {
        assert LastFill(raw, id) == LastFill(p, id);
        if LastFill(p, id).Some? {
          var i :| 0 <= i < |p| && p[i] == LastFill(p, id).value && forall j :: i < j < |p| ==> !FillFor(p[j], id);
          assert raw[i] == p[i];
          forall j | i < j < |raw|
            ensures !FillFor(raw[j], id)
          {
            if j < n {
              assert raw[j] == p[j];
            }
          }
        } else {
          forall i | 0 <= i < |raw|
            ensures !FillFor(raw[i], id)
          {
            if i < n {
              assert raw[i] == p[i];
            }
          }
        }
      }
    }
  }

  /** `FirstFill` is the position of a fill of `id` before which no fill of `id` comes. */
  lemma {:induction false} FirstFillIsFirst(raw: seq<Action>, id: string)
    ensures FirstFill(raw, id).None? <==> forall i :: 0 <= i < |raw| ==> !FillFor(raw[i], id)
    ensures FirstFill(raw, id).Some? ==>
              FillFor(raw[FirstFill(raw, id).value], id)
              && forall i :: 0 <= i < FirstFill(raw, id).value ==> !FillFor(raw[i], id)
    decreases |raw|
  {
    if raw != [] {
      var p := raw[..|raw| - 1];
      FirstFillIsFirst(p, id);
      assert forall i :: 0 <= i < |p| ==> p[i] == raw[i];
    }
  }

  lemma {:induction false} FirstLast(raw: seq<Action>, id: string)
    ensures FirstFill(raw, id).Some? <==> LastFill(raw, id).Some?
    decreases |raw|
  {
    if raw != [] {
      FirstLast(raw[..|raw| - 1], id);
    }
  }

  /** Every element that was filled has exactly one entry. */
  ghost predicate SlotsCover(raw: seq<Action>, slots: seq<Slot>) {
    DistinctIds(slots) && forall id :: HasId(slots, id) <==> LastFill(raw, id).Some?
  }

  /** Every entry holds its element's last fill. */
  predicate SlotsLast(raw: seq<Action>, slots: seq<Slot>) {
    forall i :: 0 <= i < |slots| ==> LastFill(raw, slots[i].id) == Some(slots[i].act)
  }

  /** Entries come in the order of each element's first fill. */
  predicate SlotsOrdered(raw: seq<Action>, slots: seq<Slot>) {
    && (forall i :: 0 <= i < |slots| ==> FirstFill(raw, slots[i].id).Some?)
    && (forall i, j :: 0 <= i < j < |slots| ==>
          FirstFill(raw, slots[i].id).value < FirstFill(raw, slots[j].id).value)
  }

  /** What the deduplicated fills are: one per element id that was filled (each id
      once), holding that element's last fill, ordered by each element's first fill. */
  ghost predicate SlotsDescribe(raw: seq<Action>, slots: seq<Slot>) {
    SlotsCover(raw, slots) && SlotsLast(raw, slots) && SlotsOrdered(raw, slots)
  }

  lemma SlotsFacts(raw: seq<Action>)
    ensures SlotsDescribe(raw, Slots(raw))
  {
    SlotsCoverFacts(raw);
    SlotsLastFacts(raw);
    SlotsOrderedFacts(raw);
  }

  /** One more recorded action, unfolded. */
  lemma Step(raw: seq<Action>, id: string)
    requires raw != []
    ensures var p := raw[..|raw| - 1];
            var a := raw[|raw| - 1];
            && Slots(raw) == (if a.Fill? then PutSlot(Slots(p), a.id, a) else Slots(p))
            && LastFill(raw, id) == (if FillFor(a, id) then Some(a) else LastFill(p, id))
            && FirstFill(raw, id) == (if FirstFill(p, id).Some? then FirstFill(p, id)
                                      else if FillFor(a, id) then Some(|p|) else None)
  {
  }

  lemma {:induction false} SlotsCoverFacts(raw: seq<Action>)
    ensures SlotsCover(raw, Slots(raw))
    decreases |raw|
  {
    if raw != [] {
      var p := raw[..|raw| - 1];
      var a := raw[|raw| - 1];
      SlotsCoverFacts(p);
      var S0 := Slots(p);
      var S := Slots(raw);
      Step(raw, if a.Fill? then a.id else "");
      if !a.Fill? {
        forall id
          ensures HasId(S, id) <==> LastFill(raw, id).Some?
        {
          Step(raw, id);
        }
      } else if HasId(S0, a.id) {
        assert |S| == |S0| && forall i :: 0 <= i < |S| ==> S[i].id == S0[i].id;
        forall id
          ensures HasId(S, id) <==> LastFill(raw, id).Some?
        {
          Step(raw, id);
          HasIdSame(S0, S, id);
        }
      } else {
        assert S == S0 + [Slot(a.id, a)];
        forall id
          ensures HasId(S, id) <==> LastFill(raw, id).Some?
        {
          Step(raw, id);
          HasIdSnoc(S0, Slot(a.id, a), id);
        }
        forall i, j | 0 <= i < j < |S|
          ensures S[i].id != S[j].id
        {
          if j == |S0| {
            assert S0[i].id != a.id;
          }
        }
      }
    }
  }

  lemma {:induction false} SlotsLastFacts(raw: seq<Action>)
    ensures SlotsLast(raw, Slots(raw))
    decreases |raw|
  {
    if raw != [] {
      var p := raw[..|raw| - 1];
      var a := raw[|raw| - 1];
      SlotsLastFacts(p);
      SlotsCoverFacts(p);
      var S0 := Slots(p);
      var S := Slots(raw);
      Step(raw, if a.Fill? then a.id else "");
      if !a.Fill? {
        forall i | 0 <= i < |S|
          ensures LastFill(raw, S[i].id) == Some(S[i].act)
        {
          Step(raw, S[i].id);
        }
      } else if HasId(S0, a.id) {
        forall i | 0 <= i < |S|
          ensures LastFill(raw, S[i].id) == Some(S[i].act)
        {
          Step(raw, S[i].id);
        }
      } else {
        assert S == S0 + [Slot(a.id, a)];
        forall i | 0 <= i < |S|
          ensures LastFill(raw, S[i].id) == Some(S[i].act)
        {
          Step(raw, S[i].id);
          if i < |S0| {
            assert S[i] == S0[i];
          }
        }
      }
    }
  }

  lemma {:induction false} SlotsOrderedFacts(raw: seq<Action>)
    ensures SlotsOrdered(raw, Slots(raw))
    decreases |raw|
  {
    if raw != [] {
      var p := raw[..|raw| - 1];
      var a := raw[|raw| - 1];
      SlotsOrderedFacts(p);
      var S0 := Slots(p);
      var S := Slots(raw);
      Step(raw, if a.Fill? then a.id else "");
      forall i | 0 <= i < |S0|
        ensures FirstFill(raw, S0[i].id) == FirstFill(p, S0[i].id)
      {
        Step(raw, S0[i].id);
      }
      if a.Fill? && !HasId(S0, a.id) {
        SlotsCoverFacts(p);
        FirstLast(p, a.id);
        assert S == S0 + [Slot(a.id, a)];
        assert FirstFill(raw, a.id) == Some(|p|);
        forall i, j | 0 <= i < j < |S|
          ensures FirstFill(raw, S[i].id).value < FirstFill(raw, S[j].id).value
        {
          assert S[i] == S0[i];
          if j < |S0| {
            assert S[j] == S0[j];
          }
        }
      } else if a.Fill? {
        SlotsCoverFacts(p);
        assert |S| == |S0| && forall i :: 0 <= i < |S| ==> S[i].id == S0[i].id;
      }
    }
  }

  lemma HasIdSame(slots: seq<Slot>, slots': seq<Slot>, id: string)
    requires |slots| == |slots'| && forall i :: 0 <= i < |slots| ==> slots[i].id == slots'[i].id
    ensures HasId(slots, id) <==> HasId(slots', id)
  {
    if HasId(slots, id) {
      var i :| 0 <= i < |slots| && slots[i].id == id;
      assert slots'[i].id == id;
    }
    if HasId(slots', id) {
      var i :| 0 <= i < |slots'| && slots'[i].id == id;
      assert slots[i].id == id;
    }
  }

  lemma HasIdSnoc(slots: seq<Slot>, t: Slot, id: string)
    ensures HasId(slots + [t], id) <==> HasId(slots, id) || t.id == id
  {
    var S := slots + [t];
    if HasId(S, id) && t.id != id {
      var i :| 0 <= i < |S| && S[i].id == id;
      assert slots[i].id == id;
    }
    if HasId(slots, id) {
      var i :| 0 <= i < |slots| && slots[i].id == id;
      assert S[i].id == id;
    }
    assert S[|slots|].id == t.id;
  }

  lemma SlotsSnoc(p: seq<Action>, a: Action)
    requires a.Fill?
    ensures Slots(p + [a]) == PutSlot(Slots(p), a.id, a)
  {
    assert (p + [a])[..|p + [a]| - 1] == p;
  }

  /** Non-fill actions keep their order and every action is a non-fill or a fill. */
  lemma {:induction false} KeptOnlyOthers(raw: seq<Action>)
    ensures forall a :: a in Kept(raw) <==> a in raw && !a.Fill?
    decreases |raw|
  {
    if raw != [] {
      var p := raw[..|raw| - 1];
      KeptOnlyOthers(p);
      assert raw == p + [raw[|raw| - 1]];
    }
  }

  /** A page's action list is empty exactly when nothing was recorded. */
  lemma PageActionsEmpty(raw: seq<Action>)
    ensures PageActions(raw) == [] <==> raw == []
  {
    if raw != [] {
      var a := raw[|raw| - 1];
      KeptOnlyOthers(raw);
      if a.Fill? {
        SlotsFacts(raw);
        assert HasId(Slots(raw), a.id) by {
          assert LastFill(raw, a.id).Some?;
        }
        assert |SlotActions(Slots(raw))| > 0;
      } else {
        assert a in Kept(raw);
      }
    }
  }

  lemma {:induction false} KeptOfOthers(k: seq<Action>)
    requires forall i :: 0 <= i < |k| ==> !k[i].Fill?
    ensures Kept(k) == k && Slots(k) == []
    decreases |k|
  {
    if k != [] {
      var p := k[..|k| - 1];
      assert k == p + [k[|k| - 1]];
      KeptOfOthers(p);
    }
  }

  /** A list that already holds non-fills followed by fills keeps its non-fills when
      pushed again. */
  lemma {:induction false} KeptOfFills(k: seq<Action>, f: seq<Action>)
    requires forall i :: 0 <= i < |k| ==> !k[i].Fill?
    requires forall i :: 0 <= i < |f| ==> f[i].Fill?
    ensures Kept(k + f) == k
    decreases |f|
  {
    if f == [] {
      assert k + f == k;
      KeptOfOthers(k);
    } else {
      var p := f[..|f| - 1];
      assert (k + f)[..|k + f| - 1] == k + p;
      assert (k + f)[|k + f| - 1] == f[|f| - 1];
      KeptOfFills(k, p);
    }
  }

  /** Fills that are already one per element, each under its own id, give back the same
      slots. */
  lemma {:induction false} SlotsOfDistinct(k: seq<Action>, slots: seq<Slot>)
    requires forall i :: 0 <= i < |k| ==> !k[i].Fill?
    requires DistinctIds(slots)
    requires forall i :: 0 <= i < |slots| ==> FillFor(slots[i].act, slots[i].id)
    ensures Slots(k + SlotActions(slots)) == slots
    decreases |slots|
  {
    if slots == [] {
      assert k + SlotActions(slots) == k;
      KeptOfOthers(k);
    } else {
      var s0 := slots[..|slots| - 1];
      var last := slots[|slots| - 1];
      DistinctPrefix(slots);
      calc {
        Slots(k + SlotActions(slots));
        == { assert k + SlotActions(slots) == (k + SlotActions(s0)) + [last.act]; }
        Slots((k + SlotActions(s0)) + [last.act]);
        == { SlotsSnoc(k + SlotActions(s0), last.act); }
        PutSlot(Slots(k + SlotActions(s0)), last.id, last.act);
        == { SlotsOfDistinct(k, s0); }
        PutSlot(s0, last.id, last.act);
        s0 + [last];
        slots;
      }
    }
  }

  /** The last of distinct slots is fresh for the ones before it, which are themselves
      distinct fills. */
  lemma DistinctPrefix(slots: seq<Slot>)
    requires slots != [] && DistinctIds(slots)
    requires forall i :: 0 <= i < |slots| ==> FillFor(slots[i].act, slots[i].id)
    ensures var s0 := slots[..|slots| - 1];
            var last := slots[|slots| - 1];
            && DistinctIds(s0) && (forall i :: 0 <= i < |s0| ==> FillFor(s0[i].act, s0[i].id))
            && !HasId(s0, last.id) && FillFor(last.act, last.id) && last == Slot(last.id, last.act)
            && SlotActions(slots) == SlotActions(s0) + [last.act]
  {
    var s0 := slots[..|slots| - 1];
    assert forall i :: 0 <= i < |s0| ==> s0[i] == slots[i];
    forall i | 0 <= i < |s0|
      ensures s0[i].id != slots[|slots| - 1].id
    {
      assert s0[i] == slots[i];
    }
  }

  /** Deduplication is idempotent: the actions of a page, recorded and pushed again,
      give the same page actions. */
  lemma PageActionsIdempotent(raw: seq<Action>)
    ensures PageActions(PageActions(raw)) == PageActions(raw)
  {
    var k := Kept(raw);
    var slots := Slots(raw);
    KeptOnlyOthers(raw);
    SlotsFacts(raw);
    forall i | 0 <= i < |k|
      ensures !k[i].Fill?
    {
      assert k[i] in k;
    }
    forall i | 0 <= i < |slots|
      ensures FillFor(slots[i].act, slots[i].id)
    {
      assert LastFill(raw, slots[i].id) == Some(slots[i].act);
    }
    KeptOfFills(k, SlotActions(slots));
    SlotsOfDistinct(k, slots);
  }

  // ---------------------------------------------------------------------------------
  // The session
  // ---------------------------------------------------------------------------------

  /** The module-level state of the content script. */
  class CaptureSession {
    /** `isCapturing` */
    var isCapturing: bool
    /** `isPausedForManualIntervention`; its initial `null` is false. */
    var paused: bool
    /** `rawActions` */
    var rawActions: seq<Action>
    /** `enrichedLearnableDOMDataAndInstructionsForInteraction` */
    var pages: seq<Page>
    /** `currentInteractables` */
    var interactables: seq<Json>
    /** `reverseValueToPlaceholder` */
    var reverse: Dict
    /** `window.capturePhase`; `None` before any capture has started. */
    var phase: Option<string>

    constructor ()
      ensures !isCapturing && !paused && rawActions == [] && pages == []
      ensures interactables == [] && reverse == [] && phase == None
    {
      isCapturing := false;
      paused := false;
      rawActions := [];
      pages := [];
      interactables := [];
      reverse := [];
      phase := None;
    }

    /** `buildReverseMap(p)`, with the files fetched from the extension's `data`
        directory given by name. */
    method BuildReverseMap(p: string, dataFiles: map<string, Json>)
      modifies this
      ensures reverse == LoadedReverseMap(p, dataFiles)
      ensures isCapturing == old(isCapturing) && paused == old(paused) && rawActions == old(rawActions)
      ensures pages == old(pages) && interactables == old(interactables) && phase == old(phase)
    {
      reverse := [];
      var file := PhaseFile(p);
      if file.None? || file.value !in dataFiles {
        return;
      }
      var flatJson := FlattenObject(dataFiles[file.value]);
      if flatJson.None? {
        return;
      }
      var flat := flatJson.value;
      for i := 0 to |flat|
        invariant ReverseFrom(reverse, flat[i..]) == ReverseMap(flat)
        invariant isCapturing == old(isCapturing) && paused == old(paused) && rawActions == old(rawActions)
        invariant pages == old(pages) && interactables == old(interactables) && phase == old(phase)
      {
        assert flat[i..][0] == flat[i] && flat[i..][1..] == flat[i + 1..];
        if flat[i].val.JStr? {
          var value := flat[i].val.s;
          var list := ListOf(reverse, value);
          var keyPlaceholder := JStr(PlaceholderFor(flat[i].key));
          if keyPlaceholder !in list {
            list := list + [keyPlaceholder];
          }
          reverse := Set(reverse, value, JArr(list));
        }
      }
    }

    /** `startCapture(p)`; `visible` is what the page scan finds. */
    method StartCapture(p: string, dataFiles: map<string, Json>, visible: seq<Json>)
      modifies this
      ensures phase == Some(p) && reverse == LoadedReverseMap(p, dataFiles)
      ensures isCapturing && !paused && rawActions == [] && pages == [] && interactables == visible
    {
      phase := Some(p);
      BuildReverseMap(p, dataFiles);
      isCapturing := true;
      rawActions := [];
      pages := [];
      paused := false;
      interactables := visible;
    }

    /** `logClick`: `uid` is what the element's selector maps to, if anything. */
    method LogClick(uid: Option<string>)
      modifies this
      ensures old(isCapturing && !paused) && Given(uid) ==> rawActions == old(rawActions) + [Click(uid.value)]
      ensures !(old(isCapturing && !paused) && Given(uid)) ==> rawActions == old(rawActions)
      ensures isCapturing == old(isCapturing) && paused == old(paused) && reverse == old(reverse)
      ensures pages == old(pages) && interactables == old(interactables) && phase == old(phase)
    {
      if !isCapturing || paused || !Given(uid) {
        return;
      }
      rawActions := rawActions + [Click(uid.value)];
    }

    /** `logInput`: the element's uid, its value, and the label text, `aria-label` and
        `placeholder` attribute `inferKeyName` reads. A value the reverse map does not
        know gets an invented placeholder, which is stored back as a single string. */
    method LogInput(uid: Option<string>, value: string, labelText: Option<string>,
                    aria: Option<string>, placeholderAttr: Option<string>)
      modifies this
      ensures !(old(isCapturing && !paused) && Given(uid)) ==>
                rawActions == old(rawActions) && reverse == old(reverse)
      ensures old(isCapturing && !paused) && Given(uid) ==>
                var known := Get(old(reverse), value);
                if known.Some? && JsTruthy(known.value) then
                  rawActions == old(rawActions) + [Fill(uid.value, known.value)] && reverse == old(reverse)
                else
                  var guess := JStr(PlaceholderFor(InferKeyName(labelText, aria, placeholderAttr)));
                  rawActions == old(rawActions) + [Fill(uid.value, guess)]
                  && reverse == Set(old(reverse), value, guess)
      ensures isCapturing == old(isCapturing) && paused == old(paused)
      ensures pages == old(pages) && interactables == old(interactables) && phase == old(phase)
    {
      if !isCapturing || paused || !Given(uid) {
        return;
      }
      var placeholder := Get(reverse, value);
      var chosen: Json;
      if placeholder.None? || !JsTruthy(placeholder.value) {
        var keyGuess := InferKeyName(labelText, aria, placeholderAttr);
        chosen := JStr(PlaceholderFor(keyGuess));
        reverse := Set(reverse, value, chosen);
      } else {
        chosen := placeholder.value;
      }
      rawActions := rawActions + [Fill(uid.value, chosen)];
    }

    /** `pushCurrentPageCapture`, with the window's scroll offset given. */
    method PushCurrentPageCapture(scrollY: int)
      modifies this
      ensures old(interactables) == [] || old(rawActions) == [] ==>
                pages == old(pages) && rawActions == old(rawActions) && interactables == old(interactables)
      ensures old(interactables) != [] && old(rawActions) != [] ==>
                pages == old(pages) + [Page(old(interactables), phase, scrollY, PageActions(old(rawActions)))]
                && rawActions == [] && interactables == []
      ensures isCapturing == old(isCapturing) && paused == old(paused) && reverse == old(reverse)
      ensures phase == old(phase)
    {
      if |interactables| == 0 {
        return;
      }
      var kept: seq<Action> := [];
      var fills: seq<Slot> := [];
      for i := 0 to |rawActions|
        invariant kept == Kept(rawActions[..i]) && fills == Slots(rawActions[..i])
      {
        assert rawActions[..i + 1][..i] == rawActions[..i];
        var act := rawActions[i];
        if act.Fill? {
          fills := PutSlot(fills, act.id, act);
        } else {
          kept := kept + [act];
        }
      }
      assert rawActions[..|rawActions|] == rawActions;
      var finalActions := kept + SlotActions(fills);
      PageActionsEmpty(rawActions);
      if |finalActions| == 0 {
        return;
      }
      pages := pages + [Page(interactables, phase, scrollY, finalActions)];
      rawActions := [];
      interactables := [];
    }

    /** `pauseCaptureForManualInstruction`. */
    method Pause(scrollY: int)
      modifies this
      ensures paused
      ensures old(interactables) == [] ==>
                pages == old(pages) && rawActions == old(rawActions) + [Intervene(INTERVENE_MESSAGE)]
                && interactables == old(interactables)
      ensures old(interactables) != [] ==>
                pages == old(pages) + [Page(old(interactables), phase, scrollY,
                                            PageActions(old(rawActions) + [Intervene(INTERVENE_MESSAGE)]))]
                && rawActions == [] && interactables == []
      ensures isCapturing == old(isCapturing) && reverse == old(reverse) && phase == old(phase)
    {
      paused := true;
      rawActions := rawActions + [Intervene(INTERVENE_MESSAGE)];
      PushCurrentPageCapture(scrollY);
    }

    /** `resumeCaptureAfterManualInstruction`. */
    method Resume()
      modifies this
      ensures !paused
      ensures isCapturing == old(isCapturing) && rawActions == old(rawActions) && pages == old(pages)
      ensures interactables == old(interactables) && reverse == old(reverse) && phase == old(phase)
    {
      paused := false;
    }

    /** `stopCapture`: the instruction file's pages and the phase's applicant file, or
        nothing when no capture is running. */
    method StopCapture(scrollY: int) returns (instructions: Option<seq<Page>>, applicant: Option<Export>)
      modifies this
      ensures !old(isCapturing) ==> instructions == None && applicant == None
      ensures !old(isCapturing) ==> rawActions == old(rawActions) && pages == old(pages)
                                    && interactables == old(interactables)
      ensures old(isCapturing) ==> instructions == Some(pages) && applicant == PhaseExport(phase, reverse)
      ensures old(isCapturing) && old(interactables) != [] && old(rawActions) != [] ==>
                pages == old(pages) + [Page(old(interactables), phase, scrollY, PageActions(old(rawActions)))]
      ensures old(isCapturing) && old(interactables) != [] && old(rawActions) != [] ==>
                rawActions == [] && interactables == []
      ensures old(isCapturing) && (old(interactables) == [] || old(rawActions) == []) ==>
                pages == old(pages) && rawActions == old(rawActions) && interactables == old(interactables)
      ensures !isCapturing && paused == old(paused) && reverse == old(reverse) && phase == old(phase)
    {
      if !isCapturing {
        return None, None;
      }
      isCapturing := false;
      PushCurrentPageCapture(scrollY);
      instructions := Some(pages);
      var suffix := if phase.None? then None else PhaseSuffix(phase.value);
      if suffix.None? {
        return instructions, None;
      }
      var flat := InvertMap(reverse);
      var nested := UnflattenObject(flat);
      if nested.None? {
        return instructions, None;
      }
      applicant := Some(Export("applicant_" + suffix.value + ".json", nested.value));
    }
  }
}
