/** When attestations are started, over every interleaving: attempts for a session that was never attested are
    at least the retry interval apart, and with prompt replies never in flight together. */
module Throttling {
  import opened Config
  import opened Governance
  import opened Interleaving

  ghost predicate Spaced(s: State) {
    && (forall session :: session in s.sh.attempted ==> s.sh.attempted[session] <= s.clock)
    && (forall i :: 0 <= i < |s.tries| ==>
          s.tries[i].session in s.sh.attempted && s.tries[i].time <= s.sh.attempted[s.tries[i].session])
    && (forall i, j :: 0 <= i < j < |s.tries| && s.tries[i].session == s.tries[j].session && s.tries[j].first ==>
          s.tries[j].time - s.tries[i].time >= RETRY_INTERVAL)
    && (forall id :: id in s.calls && s.calls[id].phase.Attesting? ==>
          s.calls[id].inv.session in s.sh.attempted
          && s.calls[id].phase.saw.at <= s.sh.attempted[s.calls[id].inv.session])
  }

  /** What a step that starts no attestation leaves alone. */
  lemma QuietStep(ag: Agent, s: State, a: Action)
    requires Step(ag, s, a).Some? && !a.Considering?
    ensures var t := Step(ag, s, a).value;
            && t.sh.attempted == s.sh.attempted && t.tries == s.tries && s.clock <= t.clock
            && forall id :: id in t.calls && t.calls[id].phase.Attesting? ==> id in s.calls && s.calls[id] == t.calls[id]
  {
    hide Digest, DecisionOf, AttestRun, Merge, Dedupe, Register;
  }

  lemma ConsideringSpaced(ag: Agent, s: State, id: nat)
    requires Spaced(s) && Step(ag, s, Considering(id)).Some?
    ensures Spaced(Step(ag, s, Considering(id)).value)
  {
    hide Digest;
    var t := Step(ag, s, Considering(id)).value;
    var session := s.calls[id].inv.session;
    if t.tries != s.tries {
      var last := t.tries[|s.tries|];
      forall i | 0 <= i < |s.tries| && s.tries[i].session == session && last.first
        ensures last.time - s.tries[i].time >= RETRY_INTERVAL
      {
        assert !Throttled(s.sh, session, s.clock);
      }
    }
  }

  lemma SpacedKept(ag: Agent, s: State, a: Action)
    requires Spaced(s) && Step(ag, s, a).Some?
    ensures Spaced(Step(ag, s, a).value)
  {
    hide Step;
    if a.Considering? {
      ConsideringSpaced(ag, s, a.id);
    } else {
      QuietStep(ag, s, a);
    }
  }

  lemma {:induction false} SpacedAlways(ag: Agent, s: State, actions: seq<Action>)
    requires Spaced(s) && Exec(ag, s, actions).Some?
    ensures Spaced(Exec(ag, s, actions).value)
    decreases |actions|
  {
    hide Step, Spaced;
    if actions != [] {
      SpacedKept(ag, s, actions[0]);
      SpacedAlways(ag, Step(ag, s, actions[0]).value, actions[1..]);
    }
  }

  /** In every run, an attestation started for a session that was never attested comes at least 30 s after
      every earlier one started for that session. */
  lemma FirstAttemptsSpaced(ag: Agent, actions: seq<Action>, i: nat, j: nat)
    requires Exec(ag, START, actions).Some?
    requires var tries := Exec(ag, START, actions).value.tries;
             i < j < |tries| && tries[i].session == tries[j].session && tries[j].first
    ensures var tries := Exec(ag, START, actions).value.tries;
            tries[j].time - tries[i].time >= 30 * SECOND
  {
    hide Exec;
    SpacedAlways(ag, START, actions);
  }

  // ------------------------------------------------------- prompt replies

  /** No attestation has been out longer than `within`. */
  ghost predicate Prompt(s: State, within: int) {
    forall id :: id in s.calls && s.calls[id].phase.Attesting? ==> s.clock - s.calls[id].phase.saw.at <= within
  }

  /** Every state a run passes through is prompt. */
  ghost predicate PromptRun(ag: Agent, s: State, actions: seq<Action>, within: int)
    decreases |actions|
  {
    && Prompt(s, within)
    && (actions != [] && Step(ag, s, actions[0]).Some? ==>
          PromptRun(ag, Step(ag, s, actions[0]).value, actions[1..], within))
  }

  predicate FirstInFlight(s: State, id: nat, session: string) {
    id in s.calls && s.calls[id].inv.session == session && s.calls[id].phase.Attesting?
    && session !in s.calls[id].phase.saw.sh.attested
  }

  ghost predicate Alone(s: State) {
    forall id, other, session :: FirstInFlight(s, id, session) && FirstInFlight(s, other, session) ==> id == other
  }

  lemma AloneKept(ag: Agent, s: State, a: Action, within: int)
    requires within < RETRY_INTERVAL && Spaced(s) && Prompt(s, within) && Alone(s) && Step(ag, s, a).Some?
    ensures Alone(Step(ag, s, a).value)
  {
    hide Digest, DecisionOf, AttestRun, Merge, Dedupe, Register;
    var t := Step(ag, s, a).value;
    forall id, other, session | FirstInFlight(t, id, session) && FirstInFlight(t, other, session)
      ensures id == other
    {
      if a.Considering? {
        if a.id != id {
          assert FirstInFlight(s, id, session);
        }
        if a.id != other {
          assert FirstInFlight(s, other, session);
        }
      } else {
        QuietStep(ag, s, a);
        assert FirstInFlight(s, id, session) && FirstInFlight(s, other, session);
      }
    }
  }

  lemma {:induction false} AloneAlways(ag: Agent, s: State, actions: seq<Action>, within: int)
    requires within < RETRY_INTERVAL
    requires Spaced(s) && Alone(s) && Exec(ag, s, actions).Some? && PromptRun(ag, s, actions, within)
    ensures Alone(Exec(ag, s, actions).value)
    decreases |actions|
  {
    hide Step, Spaced, Alone;
    if actions != [] {
      SpacedKept(ag, s, actions[0]);
      AloneKept(ag, s, actions[0], within);
      AloneAlways(ag, Step(ag, s, actions[0]).value, actions[1..], within);
    }
  }

  /** If no attestation is out for 30 s, and none is past its 5 s deadline, two first attestations for one session
      are never in flight together. */
  lemma FirstAttestationsExclusive(ag: Agent, actions: seq<Action>, within: int, id: nat, other: nat, session: string)
    requires Exec(ag, START, actions).Some? && PromptRun(ag, START, actions, within) && within < 30 * SECOND
    requires var s := Exec(ag, START, actions).value; FirstInFlight(s, id, session) && FirstInFlight(s, other, session)
    ensures id == other
  {
    hide Exec, PromptRun;
    AloneAlways(ag, START, actions, within);
  }

  // ------------------------------------------------- the bound is sharp

  lemma {:induction false} PromptConcat(ag: Agent, s: State, a: seq<Action>, b: seq<Action>, within: int)
    requires PromptRun(ag, s, a, within) && Exec(ag, s, a).Some?
    requires PromptRun(ag, Exec(ag, s, a).value, b, within)
    ensures PromptRun(ag, s, a + b, within)
    decreases |a|
  {
    hide Step, Prompt;
    if a == [] {
      assert a + b == b;
    } else {
      assert (a + b)[1..] == a[1..] + b;
      PromptConcat(ag, Step(ag, s, a[0]).value, a[1..], b, within);
    }
  }

  /** While no time passes what was prompt stays so. */
  lemma {:induction false} PromptWhileStill(ag: Agent, s: State, actions: seq<Action>, within: int)
    requires Prompt(s, within) && within >= 0 && Exec(ag, s, actions).Some?
    requires forall i :: 0 <= i < |actions| ==> !actions[i].Tick?
    ensures PromptRun(ag, s, actions, within) && Prompt(Exec(ag, s, actions).value, within)
    decreases |actions|
  {
    hide Step;
    if actions != [] {
      StillStep(ag, s, actions[0], within);
      PromptWhileStill(ag, Step(ag, s, actions[0]).value, actions[1..], within);
    }
  }

  lemma StillStep(ag: Agent, s: State, a: Action, within: int)
    requires Prompt(s, within) && within >= 0 && Step(ag, s, a).Some? && !a.Tick?
    ensures Prompt(Step(ag, s, a).value, within)
  {
    hide Digest, DecisionOf, AttestRun, Merge, Dedupe, Register, Throttled, AttestedHash, CountRouted;
  }

  /** The retry interval passes while a first attestation is out; then the session's next call sends another. */
  function SlowRun(a: Invocation, b: Invocation): seq<Action> {
    Entering(1, a) + [Tick(RETRY_INTERVAL)] + Entering(2, b)
  }

  lemma SlowRunOverlaps(ag: Agent, a: Invocation, b: Invocation)
    requires a.session == b.session
    requires Digest(ag, Register([], a.tool)) != "" && Digest(ag, Register(Register([], a.tool), b.tool)) != ""
    ensures var run := Exec(ag, START, SlowRun(a, b));
            && run.Some? && FirstInFlight(run.value, 1, a.session) && FirstInFlight(run.value, 2, a.session)
    ensures PromptRun(ag, START, SlowRun(a, b), RETRY_INTERVAL)
  {
    hide Digest, Exec, Register, PromptRun;
    Enters(ag, START, 1, a);
    var s := StepConsidering(ag, Entered(START, 1, a), 1);
    ExecSnoc(ag, START, Entering(1, a), Tick(RETRY_INTERVAL));
    var t := s.(clock := RETRY_INTERVAL);
    Enters(ag, t, 2, b);
    ExecConcat(ag, START, Entering(1, a) + [Tick(RETRY_INTERVAL)], Entering(2, b));
    PromptWhileStill(ag, START, Entering(1, a), RETRY_INTERVAL);
    PromptWhileStill(ag, t, Entering(2, b), RETRY_INTERVAL);
    OneTick(ag, s, RETRY_INTERVAL);
    PromptConcat(ag, START, Entering(1, a), [Tick(RETRY_INTERVAL)], RETRY_INTERVAL);
    PromptConcat(ag, START, Entering(1, a) + [Tick(RETRY_INTERVAL)], Entering(2, b), RETRY_INTERVAL);
  }

  lemma OneTick(ag: Agent, s: State, nanos: nat)
    requires Prompt(s, nanos) && Prompt(s.(clock := s.clock + nanos), nanos)
    ensures PromptRun(ag, s, [Tick(nanos)], nanos)
  {
    var t := s.(clock := s.clock + nanos);
    assert [Tick(nanos)][1..] == [];
    assert PromptRun(ag, t, [], nanos);
  }

  lemma {:induction false} PromptLonger(ag: Agent, s: State, actions: seq<Action>, within: int, longer: int)
    requires PromptRun(ag, s, actions, within) && within <= longer
    ensures PromptRun(ag, s, actions, longer)
    decreases |actions|
  {
    hide Step;
    if actions != [] && Step(ag, s, actions[0]).Some? {
      PromptLonger(ag, Step(ag, s, actions[0]).value, actions[1..], within, longer);
    }
  }

  /** No run that keeps within the bound has two first attestations of one session in flight together. */
  ghost predicate Exclusive(ag: Agent, within: int) {
    forall actions: seq<Action> :: Exec(ag, START, actions).Some? && PromptRun(ag, START, actions, within) ==>
      Alone(Exec(ag, START, actions).value)
  }

  /** The bound is sharp: first attestations are exclusive exactly when none is out for the whole retry interval.
      The agent is any whose hash is not empty on two inventories its calls can lead to. */
  lemma ExclusiveIff(ag: Agent, within: int, a: Invocation, b: Invocation)
    requires a.session == b.session
    requires Digest(ag, Register([], a.tool)) != "" && Digest(ag, Register(Register([], a.tool), b.tool)) != ""
    ensures Exclusive(ag, within) <==> within < 30_000_000_000
  {
    hide Exec, PromptRun, Digest, Register;
    if within < RETRY_INTERVAL {
      forall actions: seq<Action> | Exec(ag, START, actions).Some? && PromptRun(ag, START, actions, within)
        ensures Alone(Exec(ag, START, actions).value)
      {
        AloneAlways(ag, START, actions, within);
      }
    } else {
      SlowRunOverlaps(ag, a, b);
      PromptLonger(ag, START, SlowRun(a, b), RETRY_INTERVAL, within);
    }
  }
}
