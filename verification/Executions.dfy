/** Execution safety over every interleaving: an inner tool runs only on an allow the edge gave for that tool
    and that input, each allow is used once, and what runs is the edge's input merged over the caller's. */
module Executions {
  import opened Protocol
  import opened Admission
  import opened Guarantees
  import opened Governance
  import opened Interleaving

  /** The exchange at `at` is call `id`'s, and in it the edge allowed this tool with this input. */
  predicate AllowedAt(exchanges: seq<Exchange>, at: nat, id: nat, tool: string, input: Fields) {
    && at < |exchanges| && exchanges[at].id == id
    && AsksAbout(exchanges[at].trip, tool, input)
    && Says(exchanges[at].trip.reply, "allow")
  }

  /** What runs when the edge allowed `input` in the exchange at `at`. */
  function InputToRun(exchanges: seq<Exchange>, at: nat, input: Fields): Fields
    requires at < |exchanges| && Says(exchanges[at].trip.reply, "allow")
  {
    Merge(input, UpdatedInput(exchanges[at].trip.reply))
  }

  predicate HasVerdict(p: Phase) {
    p.Judged? || p.HalfCounted? || p.Counted? || p.Returned? || p.Ran?
  }

  /** A call that was allowed knows the exchange that allowed it, and what it returned comes from there. */
  predicate CallBacked(exchanges: seq<Exchange>, id: nat, c: Call) {
    var p := c.phase;
    && (HasVerdict(p) && p.verdict.allowed ==>
          && AllowedAt(exchanges, p.allowAt, id, c.inv.tool, c.inv.input)
          && p.verdict.updatedInput == UpdatedInput(exchanges[p.allowAt].trip.reply))
    && (p.Returned? && p.input.Some? ==>
          p.verdict.allowed && p.input.value == InputToRun(exchanges, p.allowAt, c.inv.input))
  }

  /** An execution is of a call that has run, on the allow that call was given. */
  predicate RunBacked(s: State, e: Execution) {
    && e.id in s.calls && s.calls[e.id].phase.Ran? && s.calls[e.id].phase.allowAt == e.allowAt
    && var inv := s.calls[e.id].inv;
       && e.tool == inv.tool && AllowedAt(s.exchanges, e.allowAt, e.id, inv.tool, inv.input)
       && e.input == InputToRun(s.exchanges, e.allowAt, inv.input)
  }

  ghost predicate Safe(s: State) {
    && (forall id :: id in s.calls ==> CallBacked(s.exchanges, id, s.calls[id]))
    && (forall i :: 0 <= i < |s.runs| ==> RunBacked(s, s.runs[i]))
    && (forall i, j :: 0 <= i < j < |s.runs| ==> s.runs[i].id != s.runs[j].id)
  }

  /** More exchanges do not change what a call was allowed. */
  lemma CallBackedGrows(exchanges: seq<Exchange>, more: seq<Exchange>, id: nat, c: Call)
    requires CallBacked(exchanges, id, c)
    ensures CallBacked(exchanges + more, id, c)
  {
    hide Says, AsksAbout, UpdatedInput, Merge;
  }

  lemma DecidingBacks(ag: Agent, s: State, id: nat, w: World)
    requires id in s.calls
    ensures var t := StepDeciding(ag, s, id, w);
            && t.exchanges == s.exchanges + Tag(id, DecisionOf(ag, s.calls[id].inv, w).trips)
            && t.calls == s.calls[id := t.calls[id]] && t.calls[id].phase.Judged? && t.runs == s.runs
            && CallBacked(t.exchanges, id, t.calls[id])
  {
    hide DecideRun, Says, AsksAbout, UpdatedInput;
    var inv := s.calls[id].inv;
    AllowedIffAnswered(ag.setup, w, 0, RequestFor(ag, inv), ag.setup.cfg.holdTimeout);
    DecideVerbatim(ag.setup, w, 0, RequestFor(ag, inv), ag.setup.cfg.holdTimeout);
  }

  /** The step leaves the exchanges and executions alone, and moves one call that stays backed. */
  ghost predicate MovesBacked(ag: Agent, s: State, a: Action)
    requires Step(ag, s, a).Some? && !a.Tick? && !a.Declaring?
  {
    var t := Step(ag, s, a).value;
    && t.exchanges == s.exchanges && t.runs == s.runs
    && a.id in t.calls && t.calls == s.calls[a.id := t.calls[a.id]]
    && CallBacked(t.exchanges, a.id, t.calls[a.id])
    && (a.id in s.calls ==> !s.calls[a.id].phase.Ran?)
  }

  /** The steps after the verdict: its counters, and the return with the merged input. */
  lemma LateStepsBack(ag: Agent, s: State, a: Action)
    requires Step(ag, s, a).Some? && (a.CountOutcome? || a.CountHeld? || a.Return?)
    requires CallBacked(s.exchanges, a.id, s.calls[a.id])
    ensures MovesBacked(ag, s, a)
  {
    hide Merge, Says, AsksAbout, UpdatedInput, StepConsidering, StepAttestReturns, StepRecording, StepDeciding, StepRun;
  }

  /** The steps before it, when the call has no verdict yet. */
  lemma EarlyStepsBack(ag: Agent, s: State, a: Action)
    requires Step(ag, s, a).Some?
    requires a.Arrive? || a.Registering? || a.Snapshot? || a.Considering? || a.AttestReturns? || a.Recording? || a.CountAdmitted?
    ensures MovesBacked(ag, s, a)
  {
    hide Digest, AttestRun, Merge, Register, Consider, AllowedAt, StepCountOutcome, StepReturn, StepDeciding, StepRun;
  }

  lemma SafeKept(ag: Agent, s: State, a: Action)
    requires Safe(s) && Step(ag, s, a).Some?
    ensures Safe(Step(ag, s, a).value)
  {
    var t := Step(ag, s, a).value;
    match a {
      case Tick(_) =>
      case Declaring(_) =>
      case Deciding(id, w) =>
        DecidingSafe(ag, s, id, w);
      case RunInner(id) =>
        RunningSafe(s, id);
      case _ =>
        if a.CountOutcome? || a.CountHeld? || a.Return? {
          LateStepsBack(ag, s, a);
        } else {
          EarlyStepsBack(ag, s, a);
        }
        MovedSafe(s, t, a.id);
    }
  }

  /** Moving one call that has not run keeps the executions backed. */
  lemma MovedSafe(s: State, t: State, id: nat)
    requires Safe(s) && t.exchanges == s.exchanges && t.runs == s.runs
    requires id in t.calls && t.calls == s.calls[id := t.calls[id]] && CallBacked(t.exchanges, id, t.calls[id])
    requires id in s.calls ==> !s.calls[id].phase.Ran?
    ensures Safe(t)
  {
    hide CallBacked, AllowedAt, InputToRun;
    forall i | 0 <= i < |t.runs|
      ensures RunBacked(t, t.runs[i])
    {
      assert RunBacked(s, s.runs[i]);
    }
  }

  lemma DecidingSafe(ag: Agent, s: State, id: nat, w: World)
    requires Safe(s) && id in s.calls && s.calls[id].phase.Asking?
    ensures Safe(StepDeciding(ag, s, id, w))
  {
    hide DecisionOf, Says, AsksAbout, UpdatedInput, StepDeciding, Merge;
    var t := StepDeciding(ag, s, id, w);
    DecidingBacks(ag, s, id, w);
    var more := Tag(id, DecisionOf(ag, s.calls[id].inv, w).trips);
    forall other | other in t.calls
      ensures CallBacked(t.exchanges, other, t.calls[other])
    {
      if other != id {
        CallBackedGrows(s.exchanges, more, other, s.calls[other]);
      }
    }
    forall i | 0 <= i < |t.runs|
      ensures RunBacked(t, t.runs[i])
    {
      assert RunBacked(s, s.runs[i]);
    }
  }

  lemma RunningSafe(s: State, id: nat)
    requires Safe(s) && id in s.calls && s.calls[id].phase.Returned? && s.calls[id].phase.input.Some?
    ensures Safe(StepRun(s, id))
  {
    hide Says, AsksAbout, UpdatedInput, Merge;
    var t := StepRun(s, id);
    assert CallBacked(s.exchanges, id, s.calls[id]);
    forall i | 0 <= i < |s.runs|
      ensures RunBacked(t, s.runs[i]) && s.runs[i].id != id
    {
      assert RunBacked(s, s.runs[i]);
    }
    assert RunBacked(t, t.runs[|s.runs|]);
  }

  lemma {:induction false} SafeAlways(ag: Agent, s: State, actions: seq<Action>)
    requires Safe(s) && Exec(ag, s, actions).Some?
    ensures Safe(Exec(ag, s, actions).value)
    decreases |actions|
  {
    hide Step, Safe;
    if actions != [] {
      SafeKept(ag, s, actions[0]);
      SafeAlways(ag, Step(ag, s, actions[0]).value, actions[1..]);
    }
  }

  /** Execution safety: in every run, whatever the interleaving and the edge, each execution of an inner tool
      stands on an exchange of its own in which the edge allowed that tool with its caller's input, and ran the
      input that exchange carries merged over the caller's. */
  lemma ExecutionSafety(ag: Agent, actions: seq<Action>)
    requires Exec(ag, START, actions).Some?
    ensures var s := Exec(ag, START, actions).value;
            && (forall i :: 0 <= i < |s.runs| ==>
                  var e := s.runs[i];
                  && e.id in s.calls && e.tool == s.calls[e.id].inv.tool
                  && AllowedAt(s.exchanges, e.allowAt, e.id, e.tool, s.calls[e.id].inv.input)
                  && e.input == InputToRun(s.exchanges, e.allowAt, s.calls[e.id].inv.input))
            && (forall i, j :: 0 <= i < j < |s.runs| ==> s.runs[i].allowAt != s.runs[j].allowAt)
  {
    hide Exec, Says, AsksAbout, UpdatedInput, Merge;
    SafeAlways(ag, START, actions);
    var s := Exec(ag, START, actions).value;
    forall i, j | 0 <= i < j < |s.runs|
      ensures s.runs[i].allowAt != s.runs[j].allowAt
    {
      assert RunBacked(s, s.runs[i]) && RunBacked(s, s.runs[j]);
    }
    forall i | 0 <= i < |s.runs|
      ensures RunBacked(s, s.runs[i])
    {
    }
  }
}
