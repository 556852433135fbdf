/** The phase engine and orchestrator of main.py: for every site, in order, a login loop,
    then a search loop, then an apply loop with an application counter.

    The collaborators are abstract. Each phase's instruction source is a script of replies
    (one per `ask`; `None` once the script is used up), `executor.execute` is a script of
    outcomes (success once the script is used up), and the browser and the operator only
    record what was asked of them. Everything observable goes into one trace of events.
    The pure functions below are the reference behaviour; the methods at the end run the
    same loops step by step against a `Session` object and are proved to agree with them. */
module Orchestrator {
  import opened Wrappers
  import opened Json

  const APPLICATIONS_PER_SITE_LIMIT: nat := 10

  datatype Phase = Login | Search | Application

  /** The phase tag handed to the manual-intervention escalation. */
  function Tag(p: Phase): string {
    match p
    case Login => "login"
    case Search => "search"
    case Application => "application"
  }

  /** One decoded instruction, after interpolation. */
  type Instr = Dict

  /** What one `ask` returns: `None`, or a list of instructions that may be empty. */
  type Reply = Option<seq<Instr>>

  datatype Event =
    | Navigated(site: string)
    | DomFetched
    | Asked(phase: Phase)
    | Executed(instr: Instr, ok: bool)
    | Escalated(message: Json, tag: string)
    | Closed

  /** The collaborators' state: the three reply scripts, the execute outcomes still to
      come, and the trace so far. */
  datatype Env = Env(login: seq<Reply>, search: seq<Reply>, application: seq<Reply>,
                     outcomes: seq<bool>, events: seq<Event>)

  predicate IsIntervene(instr: Instr) {
    Get(instr, "action") == Some(JStr("intervene"))
  }

  predicate IsDone(instr: Instr) {
    Get(instr, "action") == Some(JStr("done"))
  }

  /** main.py reads `instr["action"]` for every instruction and `instr['text']` for an
      `intervene`; both keys must be there. */
  predicate WellFormed(instr: Instr) {
    "action" in KeySet(instr) && (IsIntervene(instr) ==> "text" in KeySet(instr))
  }

  predicate BatchWellFormed(batch: seq<Instr>) {
    forall j :: 0 <= j < |batch| ==> WellFormed(batch[j])
  }

  predicate ScriptWellFormed(replies: seq<Reply>) {
    forall j :: 0 <= j < |replies| ==> replies[j].Some? ==> BatchWellFormed(replies[j].value)
  }

  predicate EnvWellFormed(env: Env) {
    ScriptWellFormed(env.login) && ScriptWellFormed(env.search) && ScriptWellFormed(env.application)
  }

  function Script(env: Env, p: Phase): seq<Reply> {
    match p
    case Login => env.login
    case Search => env.search
    case Application => env.application
  }

  /** The three scripts of `e` are those of `env`, except possibly phase `p`'s. */
  predicate OtherScriptsSame(env: Env, e: Env, p: Phase) {
    (p != Login ==> e.login == env.login)
    && (p != Search ==> e.search == env.search)
    && (p != Application ==> e.application == env.application)
  }

  /** `e`'s trace extends `env`'s. */
  predicate Extends(env: Env, e: Env) {
    |env.events| <= |e.events| && e.events[..|env.events|] == env.events
  }

  function Added(env: Env, e: Env): seq<Event>
    requires Extends(env, e)
  {
    e.events[|env.events|..]
  }

  /** The event that processing `instr` in phase `p` produces: an escalation for an
      `intervene`, an `execute` call for anything else. */
  predicate Corresponds(e: Event, instr: Instr, p: Phase)
    requires WellFormed(instr)
  {
    if IsIntervene(instr) then e == Escalated(Get(instr, "text").value, Tag(p))
    else e.Executed? && e.instr == instr
  }

  predicate NoInterveneExecuted(es: seq<Event>) {
    forall j :: 0 <= j < |es| ==> es[j].Executed? ==> !IsIntervene(es[j].instr)
  }

  /** Every `ask` in `es` went to phase `p`'s source, and no site was navigated or browser
      closed. */
  predicate InPhase(es: seq<Event>, p: Phase) {
    forall j :: 0 <= j < |es| ==> (es[j].Asked? ==> es[j].phase == p) && !es[j].Navigated? && !es[j].Closed?
  }

  /** The next execute outcome; success once the script is used up. */
  function NextOutcome(outcomes: seq<bool>): bool {
    |outcomes| == 0 || outcomes[0]
  }

  function RestOf<T>(s: seq<T>): seq<T> {
    if |s| == 0 then [] else s[1..]
  }

  // ----- one instruction batch -------------------------------------------------------

  datatype BatchEnd = BatchEnd(env: Env, failed: bool, done: bool)

  /** The event that processing `instr` produces: the escalation of an `intervene`, or
      the execution of anything else with the next outcome. */
  function EventOf(p: Phase, instr: Instr, env: Env): (e: Event)
    requires WellFormed(instr)
    ensures Corresponds(e, instr, p)
  {
    if IsIntervene(instr) then Escalated(Get(instr, "text").value, Tag(p))
    else Executed(instr, NextOutcome(env.outcomes))
  }

  predicate FailedExec(e: Event) {
    e.Executed? && !e.ok
  }

  predicate DoneExec(e: Event) {
    e.Executed? && e.ok && IsDone(e.instr)
  }

  /** After one instruction, the batch goes on or stops. */
  datatype Step = Continue(env: Env, done: bool) | Stop(end: BatchEnd)

  /** One iteration of the `for instr in instructions` loop. */
  function BatchStep(p: Phase, instr: Instr, env: Env, done: bool): (s: Step)
    requires WellFormed(instr)
  {
    var e := EventOf(p, instr, env);
    if IsIntervene(instr) then Continue(env.(events := env.events + [e]), done)
    else
      var env' := env.(outcomes := RestOf(env.outcomes), events := env.events + [e]);
      if !e.ok then Stop(BatchEnd(env', true, done))
      else if IsDone(instr) && p != Login then Stop(BatchEnd(env', false, true))
      else Continue(env', done || IsDone(instr))
  }

  function StepEnv(s: Step): Env {
    if s.Continue? then s.env else s.end.env
  }

  /** The batch from index `i` on, with `done` the phase flag so far: an `intervene` is
      escalated and the batch goes on; anything else is executed, and a failure stops the
      batch. A successful `done` sets the flag; in search and apply it also stops the
      batch, in login the batch goes on. */
  function RunBatch(p: Phase, batch: seq<Instr>, i: nat, env: Env, done: bool): (r: BatchEnd)
    requires i <= |batch| && BatchWellFormed(batch)
    decreases |batch| - i
  {
    if i == |batch| then BatchEnd(env, false, done)
    else
      match BatchStep(p, batch[i], env, done)
      case Stop(end) => end
      case Continue(env', done') => RunBatch(p, batch, i + 1, env', done')
  }

  /** A batch leaves the reply scripts alone and adds at most one event per instruction
      to the trace. */
  lemma {:induction false} RunBatchGrows(p: Phase, batch: seq<Instr>, i: nat, env: Env, done: bool)
    requires i <= |batch| && BatchWellFormed(batch)
    ensures var r := RunBatch(p, batch, i, env, done);
            r.env.login == env.login && r.env.search == env.search && r.env.application == env.application
            && Extends(env, r.env) && |Added(env, r.env)| <= |batch| - i
    decreases |batch| - i
  {
    if i < |batch| {
      var s := BatchStep(p, batch[i], env, done);
      StepEvents(p, batch[i], env, done);
      if s.Continue? {
        RunBatchGrows(p, batch, i + 1, s.env, s.done);
        var r := RunBatch(p, batch, i + 1, s.env, s.done);
        ContinueStep(p, batch, i, env, done, s.env, s.done);
        AddedCons(env, s.env, r.env, EventOf(p, batch[i], env));
      } else {
        StopStep(p, batch, i, env, done, s.end);
        assert Added(env, s.end.env) == [EventOf(p, batch[i], env)];
      }
    }
  }

  /** A trace extended by `e` and then by more events has `e` first among its additions. */
  lemma AddedCons(env: Env, env': Env, r: Env, e: Event)
    requires env'.events == env.events + [e] && Extends(env', r)
    ensures Extends(env, r) && Added(env, r) == [e] + Added(env', r)
  {
    assert r.events[..|env.events|] == r.events[..|env'.events|][..|env.events|];
  }

  /** The trace of one step is the earlier one plus the step's event. */
  lemma StepEvents(p: Phase, instr: Instr, env: Env, done: bool)
    requires WellFormed(instr)
    ensures StepEnv(BatchStep(p, instr, env, done)).events == env.events + [EventOf(p, instr, env)]
  {
  }

  /** A step that lets the batch go on leaves the rest of the batch to run. */
  lemma ContinueStep(p: Phase, batch: seq<Instr>, i: nat, env: Env, done: bool, env': Env, done': bool)
    requires i < |batch| && BatchWellFormed(batch)
    requires BatchStep(p, batch[i], env, done) == Continue(env', done')
    ensures RunBatch(p, batch, i, env, done) == RunBatch(p, batch, i + 1, env', done')
  {
  }

  /** A step that stops the batch decides its end. */
  lemma StopStep(p: Phase, batch: seq<Instr>, i: nat, env: Env, done: bool, end: BatchEnd)
    requires i < |batch| && BatchWellFormed(batch)
    requires BatchStep(p, batch[i], env, done) == Stop(end)
    ensures RunBatch(p, batch, i, env, done) == end
  {
  }

  /** The events a batch adds to the trace. */
  function BatchEvents(p: Phase, batch: seq<Instr>, i: nat, env: Env, done: bool): (es: seq<Event>)
    requires i <= |batch| && BatchWellFormed(batch)
    ensures |es| <= |batch| - i
  {
    RunBatchGrows(p, batch, i, env, done);
    Added(env, RunBatch(p, batch, i, env, done).env)
  }

  /** A batch that has not ended adds the event of `batch[i]`, then the rest's events. */
  lemma BatchUnfold(p: Phase, batch: seq<Instr>, i: nat, env: Env, done: bool)
    requires i < |batch| && BatchWellFormed(batch)
    ensures var s := BatchStep(p, batch[i], env, done);
            BatchEvents(p, batch, i, env, done)
            == [EventOf(p, batch[i], env)] + (if s.Continue? then BatchEvents(p, batch, i + 1, s.env, s.done) else [])
  {
    var s := BatchStep(p, batch[i], env, done);
    var e := EventOf(p, batch[i], env);
    StepEvents(p, batch[i], env, done);
    if s.Continue? {
      var r := RunBatch(p, batch, i + 1, s.env, s.done);
      RunBatchGrows(p, batch, i + 1, s.env, s.done);
      assert RunBatch(p, batch, i, env, done) == r;
      AddedCons(env, s.env, r.env, e);
    } else {
      assert RunBatch(p, batch, i, env, done) == s.end;
      assert Added(env, s.end.env) == [e];
    }
  }

  /** The batch's events are those of a prefix of its instructions, one each and in order:
      an escalation for each `intervene`, an execution of each other instruction. */
  lemma {:induction false} BatchCorrespondence(p: Phase, batch: seq<Instr>, i: nat, env: Env, done: bool)
    requires i <= |batch| && BatchWellFormed(batch)
    ensures var es := BatchEvents(p, batch, i, env, done);
            forall j :: 0 <= j < |es| ==> Corresponds(es[j], batch[i + j], p)
    decreases |batch| - i
  {
    if i < |batch| {
      var es := BatchEvents(p, batch, i, env, done);
      var s := BatchStep(p, batch[i], env, done);
      BatchUnfold(p, batch, i, env, done);
      if s.Continue? {
        BatchCorrespondence(p, batch, i + 1, s.env, s.done);
        var rest := BatchEvents(p, batch, i + 1, s.env, s.done);
        forall j | 0 <= j < |es| ensures Corresponds(es[j], batch[i + j], p) {
          if j > 0 {
            assert es[j] == rest[j - 1];
          }
        }
      }
    }
  }

  /** A failed execution is the last event of its batch, and the batch is marked failed
      exactly when it ended on one. */
  lemma {:induction false} BatchFailure(p: Phase, batch: seq<Instr>, i: nat, env: Env, done: bool)
    requires i <= |batch| && BatchWellFormed(batch)
    ensures var es := BatchEvents(p, batch, i, env, done);
            (RunBatch(p, batch, i, env, done).failed <==> es != [] && FailedExec(es[|es| - 1]))
            && forall j :: 0 <= j < |es| - 1 ==> !FailedExec(es[j])
    decreases |batch| - i
  {
    if i < |batch| {
      var es := BatchEvents(p, batch, i, env, done);
      var s := BatchStep(p, batch[i], env, done);
      BatchUnfold(p, batch, i, env, done);
      if s.Continue? {
        BatchFailure(p, batch, i + 1, s.env, s.done);
        var rest := BatchEvents(p, batch, i + 1, s.env, s.done);
        forall j | 0 <= j < |es| - 1 ensures !FailedExec(es[j]) {
          if j > 0 {
            assert es[j] == rest[j - 1];
          }
        }
      }
    }
  }

  /** The phase flag ends up set iff it was set already or the batch executed a `done`
      successfully. */
  lemma {:induction false} BatchDone(p: Phase, batch: seq<Instr>, i: nat, env: Env, done: bool)
    requires i <= |batch| && BatchWellFormed(batch)
    ensures var es := BatchEvents(p, batch, i, env, done);
            RunBatch(p, batch, i, env, done).done <==> done || HasDone(es)
    decreases |batch| - i
  {
    if i < |batch| {
      var es := BatchEvents(p, batch, i, env, done);
      var s := BatchStep(p, batch[i], env, done);
      BatchUnfold(p, batch, i, env, done);
      assert s.Continue? ==> s.done == (done || DoneExec(es[0]));
      if s.Stop? {
        assert es == [es[0]];
        assert s.end.done == (done || DoneExec(es[0]));
      } else {
        BatchDone(p, batch, i + 1, s.env, s.done);
        var rest := BatchEvents(p, batch, i + 1, s.env, s.done);
        if exists j :: 0 <= j < |rest| && DoneExec(rest[j]) {
          var j :| 0 <= j < |rest| && DoneExec(rest[j]);
          assert es[j + 1] == rest[j];
        }
        if exists j :: 0 <= j < |es| && DoneExec(es[j]) {
          var j :| 0 <= j < |es| && DoneExec(es[j]);
          if j > 0 {
            assert es[j] == rest[j - 1];
          }
        }
      }
    }
  }

  /** In search and apply, a successful `done` ends the batch: only the last event can be
      one. */
  lemma {:induction false} BatchDoneStops(p: Phase, batch: seq<Instr>, i: nat, env: Env, done: bool)
    requires i <= |batch| && BatchWellFormed(batch) && p != Login
    ensures var es := BatchEvents(p, batch, i, env, done);
            forall j :: 0 <= j < |es| - 1 ==> !DoneExec(es[j])
    decreases |batch| - i
  {
    if i < |batch| {
      var es := BatchEvents(p, batch, i, env, done);
      var s := BatchStep(p, batch[i], env, done);
      BatchUnfold(p, batch, i, env, done);
      if s.Continue? {
        BatchDoneStops(p, batch, i + 1, s.env, s.done);
        var rest := BatchEvents(p, batch, i + 1, s.env, s.done);
        forall j | 0 <= j < |es| - 1 ensures !DoneExec(es[j]) {
          if j > 0 {
            assert es[j] == rest[j - 1];
          }
        }
      }
    }
  }

  /** A batch ends before its last instruction only on a failed execution, or, outside of
      login, on a successful `done`; a login batch runs on past a `done`. */
  lemma {:induction false} BatchEarlyEnd(p: Phase, batch: seq<Instr>, i: nat, env: Env, done: bool)
    requires i <= |batch| && BatchWellFormed(batch)
    ensures var es := BatchEvents(p, batch, i, env, done);
            var r := RunBatch(p, batch, i, env, done);
            |es| < |batch| - i ==> es != [] && (r.failed || (p != Login && r.done && DoneExec(es[|es| - 1])))
    decreases |batch| - i
  {
    if i < |batch| {
      var es := BatchEvents(p, batch, i, env, done);
      var s := BatchStep(p, batch[i], env, done);
      BatchUnfold(p, batch, i, env, done);
      if s.Continue? {
        BatchEarlyEnd(p, batch, i + 1, s.env, s.done);
        var rest := BatchEvents(p, batch, i + 1, s.env, s.done);
        if rest != [] {
          assert es[|es| - 1] == rest[|rest| - 1];
        }
      }
    }
  }

  /** The batch's events never hand an `intervene` to the executor, and stay in phase. */
  lemma BatchStaysInPhase(p: Phase, batch: seq<Instr>, env: Env)
    requires BatchWellFormed(batch)
    ensures var es := BatchEvents(p, batch, 0, env, false);
            NoInterveneExecuted(es) && InPhase(es, p)
  {
    var es := BatchEvents(p, batch, 0, env, false);
    BatchCorrespondence(p, batch, 0, env, false);
    forall j | 0 <= j < |es| ensures (es[j].Executed? ==> !IsIntervene(es[j].instr)) && !es[j].Asked?
      && !es[j].Navigated? && !es[j].Closed?
    {
      assert Corresponds(es[j], batch[j], p);
    }
  }

  // ----- the three phase loops -------------------------------------------------------

  /** One turn's start: fetch the page, ask phase `p`'s source, take its next reply. */
  function AskTurn(env: Env, p: Phase): (r: (Env, Reply))
    ensures r.0.events == env.events + [DomFetched, Asked(p)] && r.0.outcomes == env.outcomes
    ensures OtherScriptsSame(env, r.0, p) && Script(r.0, p) == RestOf(Script(env, p))
    ensures r.1 == if |Script(env, p)| == 0 then None else Script(env, p)[0]
  {
    var events := env.events + [DomFetched, Asked(p)];
    var script := Script(env, p);
    var reply := if |script| == 0 then None else script[0];
    match p
    case Login => (env.(login := RestOf(env.login), events := events), reply)
    case Search => (env.(search := RestOf(env.search), events := events), reply)
    case Application => (env.(application := RestOf(env.application), events := events), reply)
  }

  /** Taking a turn keeps the scripts well formed, and a reply that is there is well
      formed. */
  lemma AskTurnWellFormed(env: Env, p: Phase)
    requires EnvWellFormed(env)
    ensures EnvWellFormed(AskTurn(env, p).0)
    ensures AskTurn(env, p).1.Some? ==> BatchWellFormed(AskTurn(env, p).1.value)
  {
    var script := Script(env, p);
    var rest := RestOf(script);
    assert ScriptWellFormed(rest) by {
      forall j | 0 <= j < |rest| ensures rest[j].Some? ==> BatchWellFormed(rest[j].value) {
        assert rest[j] == script[j + 1];
      }
    }
  }

  lemma AddedTrans(e1: Env, e2: Env, e3: Env)
    requires Extends(e1, e2) && Extends(e2, e3)
    ensures Extends(e1, e3) && Added(e1, e3) == Added(e1, e2) + Added(e2, e3)
  {
    assert e3.events[..|e1.events|] == e3.events[..|e2.events|][..|e1.events|];
  }

  lemma InPhaseAppend(a: seq<Event>, b: seq<Event>, p: Phase)
    requires NoInterveneExecuted(a) && InPhase(a, p) && NoInterveneExecuted(b) && InPhase(b, p)
    ensures NoInterveneExecuted(a + b) && InPhase(a + b, p)
  {
    forall j | 0 <= j < |a + b|
      ensures ((a + b)[j].Executed? ==> !IsIntervene((a + b)[j].instr))
        && ((a + b)[j].Asked? ==> (a + b)[j].phase == p) && !(a + b)[j].Navigated? && !(a + b)[j].Closed?
    {
      if j < |a| {
        assert (a + b)[j] == a[j];
      } else {
        assert (a + b)[j] == b[j - |a|];
      }
    }
  }

  lemma NoInterveneAppend(a: seq<Event>, b: seq<Event>)
    requires NoInterveneExecuted(a) && NoInterveneExecuted(b)
    ensures NoInterveneExecuted(a + b)
  {
    forall j | 0 <= j < |a + b| ensures (a + b)[j].Executed? ==> !IsIntervene((a + b)[j].instr) {
      if j < |a| {
        assert (a + b)[j] == a[j];
      } else {
        assert (a + b)[j] == b[j - |a|];
      }
    }
  }

  /** `if not instructions` in main.py: `None` or an empty list ends the loop. */
  predicate Stops(reply: Reply) {
    reply.None? || reply.value == []
  }

  datatype LoopEnd = LoopEnd(env: Env, completed: bool)

  /** A login or search loop (`while True`): ask, run the batch, leave once the phase flag
      is set; leave abandoned when the source has nothing more. */
  function PhaseLoop(p: Phase, env: Env): (r: LoopEnd)
    requires p != Application
    requires EnvWellFormed(env)
    ensures EnvWellFormed(r.env) && OtherScriptsSame(env, r.env, p)
    ensures Extends(env, r.env)
    ensures |Script(r.env, p)| <= |Script(env, p)|
    ensures NoInterveneExecuted(Added(env, r.env)) && InPhase(Added(env, r.env), p)
    decreases |Script(env, p)|
  {
    var (env1, reply) := AskTurn(env, p);
    AskTurnWellFormed(env, p);
    assert Added(env, env1) == [DomFetched, Asked(p)];
    if Stops(reply) then LoopEnd(env1, false)
    else
      var b := RunBatch(p, reply.value, 0, env1, false);
      RunBatchGrows(p, reply.value, 0, env1, false);
      BatchStaysInPhase(p, reply.value, env1);
      AddedTrans(env, env1, b.env);
      InPhaseAppend(Added(env, env1), Added(env1, b.env), p);
      if b.done then LoopEnd(b.env, true)
      else
        var r := PhaseLoop(p, b.env);
        AddedTrans(env, b.env, r.env);
        InPhaseAppend(Added(env, b.env), Added(b.env, r.env), p);
        r
  }

  datatype ApplyEnd = ApplyEnd(env: Env, count: nat)

  /** The apply loop: every batch that executes a `done` counts one application; the loop
      ends when the count reaches the limit or the source has nothing more. */
  function ApplyLoop(env: Env, count: nat): (r: ApplyEnd)
    requires count < APPLICATIONS_PER_SITE_LIMIT
    requires EnvWellFormed(env)
    ensures EnvWellFormed(r.env) && OtherScriptsSame(env, r.env, Application)
    ensures Extends(env, r.env)
    ensures NoInterveneExecuted(Added(env, r.env)) && InPhase(Added(env, r.env), Application)
    // the counter never passes the limit, and grows by at most one per reply taken
    ensures count <= r.count <= APPLICATIONS_PER_SITE_LIMIT
    ensures r.count - count <= |env.application| - |r.env.application|
    decreases |env.application|
  {
    var (env1, reply) := AskTurn(env, Application);
    AskTurnWellFormed(env, Application);
    assert Added(env, env1) == [DomFetched, Asked(Application)];
    if Stops(reply) then ApplyEnd(env1, count)
    else
      var b := RunBatch(Application, reply.value, 0, env1, false);
      RunBatchGrows(Application, reply.value, 0, env1, false);
      BatchStaysInPhase(Application, reply.value, env1);
      AddedTrans(env, env1, b.env);
      InPhaseAppend(Added(env, env1), Added(env1, b.env), Application);
      var count' := if b.done then count + 1 else count;
      if count' == APPLICATIONS_PER_SITE_LIMIT then ApplyEnd(b.env, count')
      else
        var r := ApplyLoop(b.env, count');
        AddedTrans(env, b.env, r.env);
        InPhaseAppend(Added(env, b.env), Added(b.env, r.env), Application);
        r
  }

  predicate HasDone(es: seq<Event>) {
    exists j :: 0 <= j < |es| && DoneExec(es[j])
  }

  lemma HasDoneAppend(a: seq<Event>, b: seq<Event>)
    ensures HasDone(a + b) <==> HasDone(a) || HasDone(b)
  {
    if HasDone(a) {
      var j :| 0 <= j < |a| && DoneExec(a[j]);
      assert (a + b)[j] == a[j];
    }
    if HasDone(b) {
      var j :| 0 <= j < |b| && DoneExec(b[j]);
      assert (a + b)[|a| + j] == b[j];
    }
    if HasDone(a + b) {
      var j :| 0 <= j < |a + b| && DoneExec((a + b)[j]);
      if j < |a| {
        assert (a + b)[j] == a[j];
      } else {
        assert (a + b)[j] == b[j - |a|];
      }
    }
  }

  /** A login or search loop completes exactly when some batch of it executed a `done`
      successfully; otherwise it was abandoned. */
  lemma {:induction false} PhaseLoopCompletion(p: Phase, env: Env)
    requires p != Application && EnvWellFormed(env)
    ensures var r := PhaseLoop(p, env);
            r.completed <==> HasDone(Added(env, r.env))
    decreases |Script(env, p)|
  {
    var (env1, reply) := AskTurn(env, p);
    AskTurnWellFormed(env, p);
    var r := PhaseLoop(p, env);
    var es := Added(env, r.env);
    var ask := [DomFetched, Asked(p)];
    assert Added(env, env1) == ask;
    assert !HasDone(ask);
    if !Stops(reply) {
      assert Script(env, p)[0] == reply;
      var b := RunBatch(p, reply.value, 0, env1, false);
      RunBatchGrows(p, reply.value, 0, env1, false);
      BatchDone(p, reply.value, 0, env1, false);
      AddedTrans(env, env1, b.env);
      HasDoneAppend(ask, Added(env1, b.env));
      if !b.done {
        PhaseLoopCompletion(p, b.env);
        AddedTrans(env, b.env, r.env);
        HasDoneAppend(Added(env, b.env), Added(b.env, r.env));
      }
    }
  }

  /** How the events of an apply loop that ended with `count` applications end: below
      the limit on an `ask`, at the limit on a successful `done`. */
  predicate EndsForReason(es: seq<Event>, count: nat) {
    es != [] && (count < APPLICATIONS_PER_SITE_LIMIT <==> es[|es| - 1] == Asked(Application))
    && (count == APPLICATIONS_PER_SITE_LIMIT ==> DoneExec(es[|es| - 1]))
  }

  lemma EndsOnDone(es: seq<Event>, j: nat)
    requires j == |es| - 1 && DoneExec(es[j])
    ensures EndsForReason(es, APPLICATIONS_PER_SITE_LIMIT)
  {
  }

  lemma EndsForReasonAppend(a: seq<Event>, b: seq<Event>, count: nat)
    requires EndsForReason(b, count)
    ensures EndsForReason(a + b, count)
  {
    assert (a + b)[|a + b| - 1] == b[|b| - 1];
  }

  /** The apply loop stops for exactly one of two reasons, visible at the end of the
      trace: below the limit it stopped right after an `ask` (the source returned `None`
      or an empty list); at the limit it stopped right after executing a `done`. */
  lemma {:induction false} ApplyLoopStopReason(env: Env, count: nat)
    requires count < APPLICATIONS_PER_SITE_LIMIT && EnvWellFormed(env)
    ensures var r := ApplyLoop(env, count);
            EndsForReason(Added(env, r.env), r.count)
    decreases |env.application|
  {
    ApplyLoopTurn(env, count);
    var t := AskTurn(env, Application);
    var env1, reply := t.0, t.1;
    var r := ApplyLoop(env, count);
    var ask := [DomFetched, Asked(Application)];
    assert Added(env, env1) == ask;
    if Stops(reply) {
      assert r == ApplyEnd(env1, count);
      assert EndsForReason(ask, count);
    } else {
      var b := RunBatch(Application, reply.value, 0, env1, false);
      RunBatchGrows(Application, reply.value, 0, env1, false);
      AddedTrans(env, env1, b.env);
      var bes := Added(env1, b.env);
      var count' := if b.done then count + 1 else count;
      if count' == APPLICATIONS_PER_SITE_LIMIT {
        assert r == ApplyEnd(b.env, count');
        BatchDone(Application, reply.value, 0, env1, false);
        BatchDoneStops(Application, reply.value, 0, env1, false);
        var j :| 0 <= j < |bes| && DoneExec(bes[j]);
        EndsOnDone(bes, j);
        EndsForReasonAppend(ask, bes, count');
      } else {
        assert r == ApplyLoop(b.env, count');
        ApplyLoopStopReason(b.env, count');
        AddedTrans(env, b.env, r.env);
        EndsForReasonAppend(Added(env, b.env), Added(b.env, r.env), r.count);
      }
    }
  }

  // ----- sites -----------------------------------------------------------------------

  /** One site: navigate; without credentials nothing else; then login, and search only
      after a completed login, and apply only after a completed search. */
  function RunSite(env: Env, site: string, credentials: Dict): (r: Env)
    requires EnvWellFormed(env)
    ensures EnvWellFormed(r) && Extends(env, r)
    ensures NoInterveneExecuted(Added(env, r))
  {
    var env1 := env.(events := env.events + [Navigated(site)]);
    assert Added(env, env1) == [Navigated(site)];
    if site !in KeySet(credentials) then env1
    else
      var l := PhaseLoop(Login, env1);
      AddedTrans(env, env1, l.env);
      NoInterveneAppend(Added(env, env1), Added(env1, l.env));
      if !l.completed then l.env
      else
        var s := PhaseLoop(Search, l.env);
        AddedTrans(env, l.env, s.env);
        NoInterveneAppend(Added(env, l.env), Added(l.env, s.env));
        if !s.completed then s.env
        else
          var a := ApplyLoop(s.env, 0);
          AddedTrans(env, s.env, a.env);
          NoInterveneAppend(Added(env, s.env), Added(s.env, a.env));
          a.env
  }

  /** The sites navigated in a trace, in order. */
  function Navigations(es: seq<Event>): seq<string> {
    if es == [] then [] else (if es[0].Navigated? then [es[0].site] else []) + Navigations(es[1..])
  }

  lemma {:induction false} NavigationsAppend(a: seq<Event>, b: seq<Event>)
    ensures Navigations(a + b) == Navigations(a) + Navigations(b)
  {
    if a == [] {
      assert a + b == b;
    } else {
      assert (a + b)[0] == a[0] && (a + b)[1..] == a[1..] + b;
      NavigationsAppend(a[1..], b);
    }
  }

  lemma {:induction false} NavigationsNone(es: seq<Event>, p: Phase)
    requires InPhase(es, p)
    ensures Navigations(es) == []
  {
    if es != [] {
      assert InPhase(es[1..], p) by {
        forall j | 0 <= j < |es[1..]| ensures (es[1..][j].Asked? ==> es[1..][j].phase == p) && !es[1..][j].Navigated? && !es[1..][j].Closed? {
          assert es[1..][j] == es[j + 1];
        }
      }
      NavigationsNone(es[1..], p);
    }
  }

  /** Occurrences of `Closed` in a trace. */
  function Closes(es: seq<Event>): nat {
    if es == [] then 0 else (if es[0].Closed? then 1 else 0) + Closes(es[1..])
  }

  lemma {:induction false} ClosesAppend(a: seq<Event>, b: seq<Event>)
    ensures Closes(a + b) == Closes(a) + Closes(b)
  {
    if a == [] {
      assert a + b == b;
    } else {
      assert (a + b)[0] == a[0] && (a + b)[1..] == a[1..] + b;
      ClosesAppend(a[1..], b);
    }
  }

  lemma {:induction false} ClosesNone(es: seq<Event>, p: Phase)
    requires InPhase(es, p)
    ensures Closes(es) == 0
  {
    if es != [] {
      assert InPhase(es[1..], p) by {
        forall j | 0 <= j < |es[1..]| ensures (es[1..][j].Asked? ==> es[1..][j].phase == p) && !es[1..][j].Navigated? && !es[1..][j].Closed? {
          assert es[1..][j] == es[j + 1];
        }
      }
      ClosesNone(es[1..], p);
    }
  }

  /** A site's events: its own navigation first, then no other navigation and no close. */
  lemma SiteEvents(env: Env, site: string, credentials: Dict)
    requires EnvWellFormed(env)
    ensures var r := RunSite(env, site, credentials);
            SiteShaped(Added(env, r), site)
  {
    var env1 := env.(events := env.events + [Navigated(site)]);
    assert Added(env, env1) == [Navigated(site)];
    var nav := [Navigated(site)];
    assert nav[1..] == [];
    assert Navigations(nav) == [site] + Navigations([]);
    assert Closes(nav) == 0 + Closes([]);
    assert SiteShaped(nav, site);
    if site in KeySet(credentials) {
      var l := PhaseLoop(Login, env1);
      AddedTrans(env, env1, l.env);
      SiteShapedAppend(Added(env, env1), Added(env1, l.env), site, Login);
      if l.completed {
        var s := PhaseLoop(Search, l.env);
        AddedTrans(env, l.env, s.env);
        SiteShapedAppend(Added(env, l.env), Added(l.env, s.env), site, Search);
        if s.completed {
          var a := ApplyLoop(s.env, 0);
          AddedTrans(env, s.env, a.env);
          SiteShapedAppend(Added(env, s.env), Added(s.env, a.env), site, Application);
        }
      }
    }
  }

  /** The events of one site: its own navigation first, then no other navigation and no
      close. */
  predicate SiteShaped(es: seq<Event>, site: string) {
    Navigations(es) == [site] && Closes(es) == 0 && es != [] && es[0] == Navigated(site)
  }

  lemma SiteShapedAppend(a: seq<Event>, b: seq<Event>, site: string, p: Phase)
    requires SiteShaped(a, site) && InPhase(b, p)
    ensures SiteShaped(a + b, site)
  {
    NavigationsNone(b, p);
    ClosesNone(b, p);
    NavigationsAppend(a, b);
    ClosesAppend(a, b);
    assert (a + b)[0] == a[0];
  }

  /** A site without credentials gets a navigation and nothing else: no `ask` of any phase
      and no execution. */
  lemma SiteWithoutCredentials(env: Env, site: string, credentials: Dict)
    requires EnvWellFormed(env) && site !in KeySet(credentials)
    ensures RunSite(env, site, credentials) == env.(events := env.events + [Navigated(site)])
  {
  }

  /** A login that does not complete leaves the search and apply sources untouched: those
      phases get no turn. */
  lemma LoginFailureSkipsLaterPhases(env: Env, site: string, credentials: Dict)
    requires EnvWellFormed(env)
    requires !PhaseLoop(Login, env.(events := env.events + [Navigated(site)])).completed
    ensures var r := RunSite(env, site, credentials);
            r.search == env.search && r.application == env.application
            && InPhase(Added(env, r)[1..], Login)
  {
    var env1 := env.(events := env.events + [Navigated(site)]);
    var r := RunSite(env, site, credentials);
    if site in KeySet(credentials) {
      assert Added(env, r)[1..] == Added(env1, r);
    }
  }

  /** A search that does not complete leaves the apply source untouched. */
  lemma SearchFailureSkipsApply(env: Env, site: string, credentials: Dict)
    requires EnvWellFormed(env)
    requires var l := PhaseLoop(Login, env.(events := env.events + [Navigated(site)]));
             l.completed && !PhaseLoop(Search, l.env).completed
    ensures RunSite(env, site, credentials).application == env.application
  {
  }

  /** All sites from index `i` on, in list order. */
  function RunSites(env: Env, sites: seq<string>, credentials: Dict, i: nat): (r: Env)
    requires i <= |sites| && EnvWellFormed(env)
    ensures EnvWellFormed(r) && Extends(env, r)
    ensures NoInterveneExecuted(Added(env, r))
    ensures Navigations(Added(env, r)) == sites[i..] && Closes(Added(env, r)) == 0
    decreases |sites| - i
  {
    if i == |sites| then env
    else
      var e := RunSite(env, sites[i], credentials);
      SiteEvents(env, sites[i], credentials);
      var r := RunSites(e, sites, credentials, i + 1);
      AddedTrans(env, e, r);
      NoInterveneAppend(Added(env, e), Added(e, r));
      NavigationsAppend(Added(env, e), Added(e, r));
      ClosesAppend(Added(env, e), Added(e, r));
      assert sites[i..] == [sites[i]] + sites[i + 1..];
      r
  }

  /** The whole of `main()` after set-up: every site in order, then one browser close. */
  function Run(env: Env, sites: seq<string>, credentials: Dict): (r: Env)
    requires EnvWellFormed(env)
    ensures Extends(env, r) && |r.events| > |env.events|
    ensures NoInterveneExecuted(Added(env, r))
    ensures Navigations(Added(env, r)) == sites
    ensures Closes(Added(env, r)) == 1 && r.events[|r.events| - 1] == Closed
  {
    var e := RunSites(env, sites, credentials, 0);
    var r := e.(events := e.events + [Closed]);
    assert Added(e, r) == [Closed];
    AddedTrans(env, e, r);
    NoInterveneAppend(Added(env, e), [Closed]);
    NavigationsAppend(Added(env, e), [Closed]);
    ClosesAppend(Added(env, e), [Closed]);
    r
  }

  // ----- the imperative main loop ----------------------------------------------------

  /** The collaborators of `main()` as one mutable object. */
  class Session {
    var login: seq<Reply>
    var search: seq<Reply>
    var application: seq<Reply>
    var outcomes: seq<bool>
    var events: seq<Event>

    function State(): Env
      reads this
    {
      Env(login, search, application, outcomes, events)
    }

    constructor (env: Env)
      ensures State() == env
    {
      login, search, application := env.login, env.search, env.application;
      outcomes, events := env.outcomes, env.events;
    }

    /** `browser.goto(site)`. */
    method Goto(site: string)
      modifies this
      ensures State() == old(State()).(events := old(events) + [Navigated(site)])
    {
      events := events + [Navigated(site)];
    }

    /** `browser.get_dom()` followed by the phase agent's `ask`. */
    method Ask(p: Phase) returns (reply: Reply)
      modifies this
      ensures (State(), reply) == AskTurn(old(State()), p)
    {
      events := events + [DomFetched, Asked(p)];
      match p
      case Login =>
        reply := if |login| == 0 then None else login[0];
        login := RestOf(login);
      case Search =>
        reply := if |search| == 0 then None else search[0];
        search := RestOf(search);
      case Application =>
        reply := if |application| == 0 then None else application[0];
        application := RestOf(application);
    }

    /** `executor.execute(instr)`. */
    method Execute(instr: Instr) returns (ok: bool)
      modifies this
      ensures ok == NextOutcome(old(outcomes))
      ensures State() == old(State()).(outcomes := RestOf(old(outcomes)), events := old(events) + [Executed(instr, ok)])
    {
      ok := NextOutcome(outcomes);
      outcomes := RestOf(outcomes);
      events := events + [Executed(instr, ok)];
    }

    /** `request_manual_intervention(message, phase)`: returns once the operator resumes. */
    method RequestManualIntervention(message: Json, tag: string)
      modifies this
      ensures State() == old(State()).(events := old(events) + [Escalated(message, tag)])
    {
      events := events + [Escalated(message, tag)];
    }

    /** `browser.close()`. */
    method Close()
      modifies this
      ensures State() == old(State()).(events := old(events) + [Closed])
    {
      events := events + [Closed];
    }
  }

  /** The body of the `for instr in instructions` loop for `batch[i]`: escalate an
      `intervene`, execute anything else. `stop` says the loop breaks. */
  method RunInstruction(s: Session, p: Phase, batch: seq<Instr>, i: nat, done0: bool) returns (stop: bool, failed: bool, done: bool)
    requires i < |batch| && BatchWellFormed(batch)
    modifies s
    ensures RunBatch(p, batch, i, old(s.State()), done0)
            == if stop then BatchEnd(s.State(), failed, done) else RunBatch(p, batch, i + 1, s.State(), done)
    ensures failed ==> stop
  {
    ghost var before := s.State();
    var instr := batch[i];
    stop, failed, done := false, false, done0;
    if Get(instr, "action") == Some(JStr("intervene")) {
      s.RequestManualIntervention(Get(instr, "text").value, Tag(p));
    } else {
      var ok := s.Execute(instr);
      if !ok {
        stop, failed := true, true;
      } else if Get(instr, "action") == Some(JStr("done")) {
        done := true;
        stop := p != Login;
      }
    }
    if stop {
      StopStep(p, batch, i, before, done0, BatchEnd(s.State(), failed, done));
    } else {
      ContinueStep(p, batch, i, before, done0, s.State(), done);
    }
  }

  /** The inner `for instr in instructions` loop of any phase. */
  method RunInstructions(s: Session, p: Phase, batch: seq<Instr>, done0: bool) returns (failed: bool, done: bool)
    requires BatchWellFormed(batch)
    modifies s
    ensures RunBatch(p, batch, 0, old(s.State()), done0) == BatchEnd(s.State(), failed, done)
  {
    ghost var spec := RunBatch(p, batch, 0, s.State(), done0);
    done := done0;
    failed := false;
    var i, stop := 0, false;
    while i < |batch| && !stop
      invariant 0 <= i <= |batch|
      invariant stop ==> spec == BatchEnd(s.State(), failed, done)
      invariant !stop ==> !failed && RunBatch(p, batch, i, s.State(), done) == spec
      decreases |batch| - i, !stop
    {
      stop, failed, done := RunInstruction(s, p, batch, i, done);
      if !stop {
        i := i + 1;
      }
    }
  }

  /** One turn of a login or search loop, as the loop method takes it. */
  lemma PhaseLoopTurn(p: Phase, env: Env)
    requires p != Application && EnvWellFormed(env)
    ensures var t := AskTurn(env, p);
            EnvWellFormed(t.0) && (t.1.Some? ==> BatchWellFormed(t.1.value))
            && (Stops(t.1) ==> PhaseLoop(p, env) == LoopEnd(t.0, false))
            && (!Stops(t.1) ==>
                  var b := RunBatch(p, t.1.value, 0, t.0, false);
                  EnvWellFormed(b.env) && |Script(b.env, p)| < |Script(env, p)|
                  && PhaseLoop(p, env) == if b.done then LoopEnd(b.env, true) else PhaseLoop(p, b.env))
  {
    AskTurnWellFormed(env, p);
    var t := AskTurn(env, p);
    if !Stops(t.1) {
      RunBatchGrows(p, t.1.value, 0, t.0, false);
    }
  }

  /** The login or the search `while True` loop. */
  method RunPhase(s: Session, p: Phase) returns (completed: bool)
    requires p != Application && EnvWellFormed(s.State())
    modifies s
    ensures PhaseLoop(p, old(s.State())) == LoopEnd(s.State(), completed)
  {
    ghost var spec := PhaseLoop(p, s.State());
    completed := false;
    while true
      invariant EnvWellFormed(s.State())
      invariant PhaseLoop(p, s.State()) == spec
      decreases |Script(s.State(), p)|
    {
      PhaseLoopTurn(p, s.State());
      var reply := s.Ask(p);
      if reply.None? || reply.value == [] {
        break;
      }
      var failed;
      failed, completed := RunInstructions(s, p, reply.value, false);
      if completed {
        break;
      }
    }
  }

  /** One turn of the apply loop, as the loop method takes it. */
  lemma ApplyLoopTurn(env: Env, count: nat)
    requires count < APPLICATIONS_PER_SITE_LIMIT && EnvWellFormed(env)
    ensures var t := AskTurn(env, Application);
            EnvWellFormed(t.0) && (t.1.Some? ==> BatchWellFormed(t.1.value))
            && (Stops(t.1) ==> ApplyLoop(env, count) == ApplyEnd(t.0, count))
            && (!Stops(t.1) ==>
                  var b := RunBatch(Application, t.1.value, 0, t.0, false);
                  var count' := if b.done then count + 1 else count;
                  EnvWellFormed(b.env) && |b.env.application| < |env.application|
                  && ApplyLoop(env, count)
                     == if count' == APPLICATIONS_PER_SITE_LIMIT then ApplyEnd(b.env, count') else ApplyLoop(b.env, count'))
  {
    AskTurnWellFormed(env, Application);
    var t := AskTurn(env, Application);
    if !Stops(t.1) {
      RunBatchGrows(Application, t.1.value, 0, t.0, false);
    }
  }

  /** The apply `while True` loop with its application counter. */
  method RunApply(s: Session) returns (applications: nat)
    requires EnvWellFormed(s.State())
    modifies s
    ensures ApplyLoop(old(s.State()), 0) == ApplyEnd(s.State(), applications)
  {
    ghost var spec := ApplyLoop(s.State(), 0);
    applications := 0;
    while true
      invariant EnvWellFormed(s.State())
      invariant applications < APPLICATIONS_PER_SITE_LIMIT
      invariant ApplyLoop(s.State(), applications) == spec
      decreases |s.application|
    {
      ApplyLoopTurn(s.State(), applications);
      var reply := s.Ask(Application);
      if reply.None? || reply.value == [] {
        break;
      }
      var failed, applied := RunInstructions(s, Application, reply.value, false);
      if applied {
        applications := applications + 1;
      }
      if applications == APPLICATIONS_PER_SITE_LIMIT {
        break;
      }
    }
  }

  /** `main()` from `for site in applicant_preferences["sites"]` to `browser.close()`. */
  method RunAllSites(s: Session, sites: seq<string>, credentials: Dict)
    requires EnvWellFormed(s.State())
    modifies s
    ensures s.State() == Run(old(s.State()), sites, credentials)
  {
    ghost var env0 := s.State();
    for i := 0 to |sites|
      invariant EnvWellFormed(s.State())
      invariant RunSites(s.State(), sites, credentials, i) == RunSites(env0, sites, credentials, 0)
    {
      ghost var before := s.State();
      s.Goto(sites[i]);
      if sites[i] !in KeySet(credentials) {
        continue;
      }
      var loggedIn := RunPhase(s, Login);
      if !loggedIn {
        continue;
      }
      var searched := RunPhase(s, Search);
      if !searched {
        continue;
      }
      var applications := RunApply(s);
    }
    s.Close();
  }
}
