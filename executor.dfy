/** The instruction executor of executor.py and the browser collaborator it drives.

    The browser is abstract: it records every call made on it, and each action primitive
    (click, fill, select, upload) either returns or raises according to a script of
    outcomes fixed in advance (`true` = that call raises; once the script is used up every
    call returns). */
module Executor {
  import opened Wrappers
  import opened Json

  /** A call made on the browser collaborator. */
  datatype Call =
    | Goto(url: string)
    | GetDom
    | Click(selector: Json)
    | Fill(selector: Json, text: Json)
    | SelectOption(selector: Json, value: Json)
    | Upload(selector: Json, path: Json)
    | Close

  /** Does the call with index `i` in the fault script raise? */
  predicate FaultAt(faults: seq<bool>, i: nat) {
    i < |faults| && faults[i]
  }

  /** The fault script after `n` primitive calls have used it. */
  function Consume(faults: seq<bool>, n: nat): seq<bool> {
    if n <= |faults| then faults[n..] else []
  }

  /** One more call after `n` calls uses the entry with index `n`. */
  lemma ConsumeStep(faults: seq<bool>, n: nat)
    ensures Consume(Consume(faults, n), 1) == Consume(faults, n + 1)
    ensures FaultAt(Consume(faults, n), 0) == FaultAt(faults, n)
  {
    if n + 1 <= |faults| {
      assert faults[n..][1..] == faults[n + 1..];
    }
  }

  class Browser {
    /** Every call made on the browser, in order. */
    var calls: seq<Call>
    /** Outcomes of the coming action primitives: `true` = it raises. */
    var faults: seq<bool>
    /** The page snapshot `get_dom` returns. */
    var dom: string

    constructor (faults: seq<bool>, dom: string)
      ensures calls == [] && this.faults == faults && this.dom == dom
    {
      calls := [];
      this.faults := faults;
      this.dom := dom;
    }

    /** An action primitive: recorded, and raising if the script says so. */
    method Act(c: Call) returns (raised: bool)
      modifies this
      ensures calls == old(calls) + [c]
      ensures raised == FaultAt(old(faults), 0)
      ensures faults == Consume(old(faults), 1) && dom == old(dom)
    {
      calls := calls + [c];
      raised := FaultAt(faults, 0);
      faults := Consume(faults, 1);
    }

    method Click(selector: Json) returns (raised: bool)
      modifies this
      ensures calls == old(calls) + [Call.Click(selector)]
      ensures raised == FaultAt(old(faults), 0)
      ensures faults == Consume(old(faults), 1) && dom == old(dom)
    {
      raised := Act(Call.Click(selector));
    }

    method Fill(selector: Json, text: Json) returns (raised: bool)
      modifies this
      ensures calls == old(calls) + [Call.Fill(selector, text)]
      ensures raised == FaultAt(old(faults), 0)
      ensures faults == Consume(old(faults), 1) && dom == old(dom)
    {
      raised := Act(Call.Fill(selector, text));
    }

    method Select(selector: Json, value: Json) returns (raised: bool)
      modifies this
      ensures calls == old(calls) + [Call.SelectOption(selector, value)]
      ensures raised == FaultAt(old(faults), 0)
      ensures faults == Consume(old(faults), 1) && dom == old(dom)
    {
      raised := Act(Call.SelectOption(selector, value));
    }

    method Upload(selector: Json, path: Json) returns (raised: bool)
      modifies this
      ensures calls == old(calls) + [Call.Upload(selector, path)]
      ensures raised == FaultAt(old(faults), 0)
      ensures faults == Consume(old(faults), 1) && dom == old(dom)
    {
      raised := Act(Call.Upload(selector, path));
    }

    method Goto(url: string)
      modifies this
      ensures calls == old(calls) + [Call.Goto(url)]
      ensures faults == old(faults) && dom == old(dom)
    {
      calls := calls + [Call.Goto(url)];
    }

    method GetDom() returns (snapshot: string)
      modifies this
      ensures calls == old(calls) + [Call.GetDom]
      ensures snapshot == dom
      ensures faults == old(faults) && dom == old(dom)
    {
      calls := calls + [Call.GetDom];
      snapshot := dom;
    }

    method Close()
      modifies this
      ensures calls == old(calls) + [Call.Close]
      ensures faults == old(faults) && dom == old(dom)
    {
      calls := calls + [Call.Close];
    }
  }

  const MaxAttempts: nat := 3

  /** `instruction.get(name, "")`. */
  function FieldOr(instruction: Dict, name: string): Json {
    Get(instruction, name).GetOr(JStr(""))
  }

  /** The browser primitive an action is dispatched to; `submit` is a click on the same
      selector. `None` for `done` and for every action the executor does not know. */
  function PrimitiveFor(action: Json, selector: Json, text: Json): (r: Option<Call>)
    ensures r.Some? ==> r.value.Click? || r.value.Fill? || r.value.SelectOption? || r.value.Upload?
    ensures r.Some? <==> action == JStr("click") || action == JStr("fill") || action == JStr("select")
                         || action == JStr("upload") || action == JStr("submit")
    ensures action == JStr("click") ==> r == Some(Click(selector))
    ensures action == JStr("fill") ==> r == Some(Fill(selector, text))
    ensures action == JStr("select") ==> r == Some(SelectOption(selector, text))
    ensures action == JStr("upload") ==> r == Some(Upload(selector, text))
    ensures action == JStr("submit") ==> r == Some(Click(selector))
  {
    if action == JStr("click") then Some(Click(selector))
    else if action == JStr("fill") then Some(Fill(selector, text))
    else if action == JStr("select") then Some(SelectOption(selector, text))
    else if action == JStr("upload") then Some(Upload(selector, text))
    else if action == JStr("submit") then Some(Click(selector))
    else None
  }

  /** The number of primitive calls the retry loop has made once it stops, when it starts at
      attempt `attempt`: it stops right after the first call that does not raise, and after
      `MaxAttempts` calls in any case. */
  function AttemptsMade(faults: seq<bool>, attempt: nat): (n: nat)
    requires attempt <= MaxAttempts
    ensures attempt <= n <= MaxAttempts
    ensures attempt < MaxAttempts ==> attempt < n
    decreases MaxAttempts - attempt
  {
    if attempt == MaxAttempts then attempt
    else if !FaultAt(faults, attempt) then attempt + 1
    else AttemptsMade(faults, attempt + 1)
  }

  /** Every call before the last raised, and the last one returned exactly when some
      attempt left would have returned. */
  lemma {:induction false} AttemptsMadeFacts(faults: seq<bool>, attempt: nat)
    requires attempt <= MaxAttempts
    ensures var n := AttemptsMade(faults, attempt);
            (forall i :: attempt <= i < n - 1 ==> FaultAt(faults, i))
            && (attempt < n && !FaultAt(faults, n - 1) <==> exists i :: attempt <= i < MaxAttempts && !FaultAt(faults, i))
    decreases MaxAttempts - attempt
  {
    if attempt < MaxAttempts && FaultAt(faults, attempt) {
      AttemptsMadeFacts(faults, attempt + 1);
    }
  }

  function Repeated(c: Call, n: nat): (r: seq<Call>)
    ensures |r| == n && forall i :: 0 <= i < n ==> r[i] == c
  {
    if n == 0 then [] else Repeated(c, n - 1) + [c]
  }

  /** What one `execute` call returns, and the primitive calls it makes. */
  datatype Outcome = Outcome(ok: bool, calls: seq<Call>)

  /** The reference behaviour of `execute` against a fault script. */
  function ExecuteOutcome(instruction: Dict, faults: seq<bool>): Outcome {
    var action := FieldOr(instruction, "action");
    var selector := FieldOr(instruction, "selector");
    var text := FieldOr(instruction, "text");
    if !PyTruthy(selector) && action != JStr("done") then Outcome(false, [])
    else RetryOutcome(action, selector, text, faults)
  }

  /** The retry loop of `execute`, once the instruction has passed validation. */
  function RetryOutcome(action: Json, selector: Json, text: Json, faults: seq<bool>): Outcome {
    if action == JStr("done") then Outcome(true, [])
    else match PrimitiveFor(action, selector, text)
      case None => Outcome(false, [])
      case Some(c) =>
        var n := AttemptsMade(faults, 0);
        Outcome(!FaultAt(faults, n - 1), Repeated(c, n))
  }

  /** What the source promises of `execute`: the validation, the dispatch and the retry
      policy. */
  lemma ExecuteOutcomeFacts(instruction: Dict, faults: seq<bool>)
    ensures var r := ExecuteOutcome(instruction, faults);
            var action := FieldOr(instruction, "action");
            var selector := FieldOr(instruction, "selector");
            var c := PrimitiveFor(action, selector, FieldOr(instruction, "text"));
            // `done` succeeds without touching the browser, whatever the selector
            (action == JStr("done") ==> r == Outcome(true, []))
            // an empty selector on any other action fails at once
            && (!PyTruthy(selector) && action != JStr("done") ==> r == Outcome(false, []))
            // an action the executor does not know fails on the first attempt, without a call
            && (c.None? && action != JStr("done") ==> r == Outcome(false, []))
            // at most MaxAttempts calls, all of the same primitive
            && |r.calls| <= MaxAttempts
            && (forall i :: 0 <= i < |r.calls| ==> Some(r.calls[i]) == c)
            // every call but the last raised; success iff the last call did not raise
            && (forall i :: 0 <= i < |r.calls| - 1 ==> FaultAt(faults, i))
            && (r.calls != [] ==> (r.ok <==> !FaultAt(faults, |r.calls| - 1)))
            // a valid primitive instruction fails only after MaxAttempts raising calls
            && (r.calls != [] && !r.ok ==> |r.calls| == MaxAttempts)
            // a valid primitive instruction succeeds iff one of the first MaxAttempts calls returns
            && (PyTruthy(selector) && c.Some?
                ==> r.calls != [] && (r.ok <==> exists i :: 0 <= i < MaxAttempts && !FaultAt(faults, i)))
  {
    AttemptsMadeFacts(faults, 0);
  }

  class InstructionExecutor {
    const browser: Browser

    constructor (browser: Browser)
      ensures this.browser == browser
    {
      this.browser := browser;
    }

    /** One attempt of the retry loop: the `if`/`elif` dispatch on the action. `known` is
        false for an action with no branch, which makes `execute` return `False`. */
    method Attempt(action: Json, selector: Json, text: Json) returns (known: bool, raised: bool)
      modifies browser
      ensures var c := PrimitiveFor(action, selector, text);
              (known <==> c.Some? || action == JStr("done"))
              && (c.Some? ==> browser.calls == old(browser.calls) + [c.value]
                              && raised == FaultAt(old(browser.faults), 0)
                              && browser.faults == Consume(old(browser.faults), 1))
              && (c.None? ==> browser.calls == old(browser.calls) && browser.faults == old(browser.faults) && !raised)
      ensures browser.dom == old(browser.dom)
    {
      known, raised := true, false;
      if action == JStr("click") {
        raised := browser.Click(selector);
      } else if action == JStr("fill") {
        raised := browser.Fill(selector, text);
      } else if action == JStr("select") {
        raised := browser.Select(selector, text);
      } else if action == JStr("upload") {
        raised := browser.Upload(selector, text);
      } else if action == JStr("submit") {
        raised := browser.Click(selector);
      } else if action == JStr("done") {
        raised := false;
      } else {
        known := false;
      }
    }

    /** Validates one instruction, dispatches it to a browser primitive and retries a
        raising primitive up to MaxAttempts times in all. */
    method Execute(instruction: Dict) returns (ok: bool)
      modifies browser
      ensures var out := ExecuteOutcome(instruction, old(browser.faults));
              ok == out.ok && browser.calls == old(browser.calls) + out.calls
              && browser.faults == Consume(old(browser.faults), |out.calls|)
      ensures browser.dom == old(browser.dom)
    {
      var action := FieldOr(instruction, "action");
      var selector := FieldOr(instruction, "selector");
      var text := FieldOr(instruction, "text");
      if !PyTruthy(selector) && action != JStr("done") {
        assert browser.calls + [] == browser.calls;
        return false;
      }
      ok := Retry(action, selector, text);
    }

    /** The `for attempt in range(MAX_ATTEMPTS)` loop of `execute`. */
    method Retry(action: Json, selector: Json, text: Json) returns (ok: bool)
      modifies browser
      ensures var out := RetryOutcome(action, selector, text, old(browser.faults));
              ok == out.ok && browser.calls == old(browser.calls) + out.calls
              && browser.faults == Consume(old(browser.faults), |out.calls|)
      ensures browser.dom == old(browser.dom)
    {
      ghost var faults0 := browser.faults;
      ghost var calls0 := browser.calls;
      ghost var c := PrimitiveFor(action, selector, text);
      ghost var cv := if c.Some? then c.value else GetDom;
      for attempt := 0 to MaxAttempts
        invariant attempt > 0 ==> c.Some?
        invariant browser.calls == calls0 + Repeated(cv, attempt)
        invariant browser.faults == Consume(faults0, attempt)
        invariant forall i :: 0 <= i < attempt ==> FaultAt(faults0, i)
        invariant browser.dom == old(browser.dom)
      {
        ConsumeStep(faults0, attempt);
        var known, raised := Attempt(action, selector, text);
        if !known {
          RetryUnknown(action, selector, text, faults0);
          assert calls0 + [] == calls0;
          return false;
        }
        if !raised {
          if c.Some? {
            RetryStops(action, selector, text, faults0, attempt);
          } else {
            RetryDone(action, selector, text, faults0);
            assert calls0 + [] == calls0;
          }
          return true;
        }
      }
      RetryExhausts(action, selector, text, faults0);
      return false;
    }
  }

  // The ways the retry loop ends.

  lemma RetryDone(action: Json, selector: Json, text: Json, faults: seq<bool>)
    requires action == JStr("done")
    ensures RetryOutcome(action, selector, text, faults) == Outcome(true, [])
  {
  }

  lemma RetryUnknown(action: Json, selector: Json, text: Json, faults: seq<bool>)
    requires PrimitiveFor(action, selector, text).None? && action != JStr("done")
    ensures RetryOutcome(action, selector, text, faults) == Outcome(false, [])
  {
  }

  /** The retry loop stops after the first call that does not raise. */
  lemma RetryStops(action: Json, selector: Json, text: Json, faults: seq<bool>, k: nat)
    requires PrimitiveFor(action, selector, text).Some?
    requires k < MaxAttempts && !FaultAt(faults, k)
    requires forall i :: 0 <= i < k ==> FaultAt(faults, i)
    ensures RetryOutcome(action, selector, text, faults)
            == Outcome(true, Repeated(PrimitiveFor(action, selector, text).value, k + 1))
  {
    AttemptsMadeFacts(faults, 0);
  }

  /** Calls that all raise use up every attempt. */
  lemma RetryExhausts(action: Json, selector: Json, text: Json, faults: seq<bool>)
    requires PrimitiveFor(action, selector, text).Some?
    requires forall i :: 0 <= i < MaxAttempts ==> FaultAt(faults, i)
    ensures RetryOutcome(action, selector, text, faults)
            == Outcome(false, Repeated(PrimitiveFor(action, selector, text).value, MaxAttempts))
  {
    AttemptsMadeFacts(faults, 0);
  }
}
