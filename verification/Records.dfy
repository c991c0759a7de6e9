/** When a session's record is the last attestation the edge acknowledged for it, over every interleaving: always,
    as long as no two calls of a session are sending different attestations at once; and wherever two are,
    the record can end up behind. */
module Records {
  import opened Options
  import opened Admission
  import opened Governance
  import opened Interleaving
  import opened Attestations

  /** Where the last acknowledgement for the session stands, if there is one. */
  function LastAck(acks: seq<Ack>, session: string): (r: Option<nat>)
    ensures r.Some? ==> r.value < |acks| && acks[r.value].session == session
  {
    if acks == [] then None
    else if acks[|acks| - 1].session == session then Some(|acks| - 1)
    else LastAck(acks[..|acks| - 1], session)
  }

  lemma LastAckSnoc(acks: seq<Ack>, ack: Ack, session: string)
    ensures LastAck(acks + [ack], session) == if ack.session == session then Some(|acks|) else LastAck(acks, session)
  {
    assert (acks + [ack])[..|acks|] == acks;
  }

  lemma {:induction false} LastAckExists(acks: seq<Ack>, i: nat)
    requires i < |acks|
    ensures LastAck(acks, acks[i].session).Some?
  {
    if acks[|acks| - 1].session != acks[i].session {
      LastAckExists(acks[..|acks| - 1], i);
    }
  }

  /** The call holds an acknowledgement for the session it has yet to record. */
  predicate Holding(c: Call, session: string) {
    c.inv.session == session && c.phase.Acknowledged?
  }

  /** The call is between sending its attestation and recording it. */
  predicate Underway(c: Call, session: string) {
    c.inv.session == session && (c.phase.Attesting? || c.phase.Acknowledged?)
  }

  /** No two calls of one session are under way with different attestations. */
  ghost predicate Agree(ag: Agent, s: State) {
    forall id, other :: id in s.calls && other in s.calls ==> !Differ(ag, s.calls[id], s.calls[other])
  }

  /** Both calls are under way for one session, with attestations the hash tells apart. */
  ghost predicate Differ(ag: Agent, c: Call, d: Call) {
    && Underway(c, c.inv.session) && Underway(d, c.inv.session)
    && Digest(ag, c.phase.tools) != Digest(ag, d.phase.tools)
  }

  /** Every state a run passes through agrees. */
  ghost predicate AgreeingRun(ag: Agent, s: State, actions: seq<Action>)
    decreases |actions|
  {
    && Agree(ag, s)
    && (actions != [] && Step(ag, s, actions[0]).Some? ==>
          AgreeingRun(ag, Step(ag, s, actions[0]).value, actions[1..]))
  }

  /** The session's record is its last acknowledgement. */
  ghost predicate IsCurrent(ag: Agent, s: State, session: string) {
    match LastAck(s.acks, session)
    case None => session !in s.sh.attested
    case Some(i) => session in s.sh.attested && s.sh.attested[session] == Digest(ag, s.acks[i].tools)
  }

  predicate SomeHolding(s: State, session: string) {
    exists id :: id in s.calls && Holding(s.calls[id], session)
  }

  /** The record is current or its last acknowledgement is held; and nothing else is held. */
  ghost predicate Current(ag: Agent, s: State, session: string) {
    && (IsCurrent(ag, s, session) || SomeHolding(s, session))
    && (forall id :: id in s.calls && Holding(s.calls[id], session) ==>
          LastAck(s.acks, session).Some?
          && Digest(ag, s.calls[id].phase.tools) == Digest(ag, s.acks[LastAck(s.acks, session).value].tools))
  }

  // ------------------------------------------------------------ every step

  /** A step that acknowledges and records nothing. */
  lemma MovedCurrent(ag: Agent, s: State, t: State, id: nat, session: string)
    requires Current(ag, s, session) && t.acks == s.acks && t.sh.attested == s.sh.attested
    requires id in t.calls && t.calls == s.calls[id := t.calls[id]] && !t.calls[id].phase.Acknowledged?
    requires id in s.calls ==> !s.calls[id].phase.Acknowledged?
    ensures Current(ag, t, session)
  {
    hide Digest, LastAck;
    if SomeHolding(s, session) {
      var held :| held in s.calls && Holding(s.calls[held], session);
      assert held in t.calls && Holding(t.calls[held], session);
    }
  }

  lemma ReturnsCurrent(ag: Agent, s: State, id: nat, w: World, session: string)
    requires Agree(ag, s) && Current(ag, s, session) && Step(ag, s, AttestReturns(id, w)).Some?
    ensures Current(ag, Step(ag, s, AttestReturns(id, w)).value, session)
  {
    hide Digest, LastAck, AttestRun;
    var t := Step(ag, s, AttestReturns(id, w)).value;
    if t.acks == s.acks {
      MovedCurrent(ag, s, t, id, session);
    } else {
      var ack := t.acks[|s.acks|];
      assert t.acks == s.acks + [ack];
      LastAckSnoc(s.acks, ack, session);
      if ack.session == session {
        assert Holding(t.calls[id], session);
        forall other | other in t.calls && Holding(t.calls[other], session)
          ensures Digest(ag, t.calls[other].phase.tools) == Digest(ag, ack.tools)
        {
          if other != id {
            assert !Differ(ag, s.calls[other], s.calls[id]);
          }
        }
      } else if SomeHolding(s, session) {
        var held :| held in s.calls && Holding(s.calls[held], session);
        assert held in t.calls && Holding(t.calls[held], session);
      }
    }
  }

  lemma RecordingCurrent(ag: Agent, s: State, id: nat, session: string)
    requires Current(ag, s, session) && Step(ag, s, Recording(id)).Some?
    ensures Current(ag, Step(ag, s, Recording(id)).value, session)
  {
    hide Digest, LastAck;
    var t := Step(ag, s, Recording(id)).value;
    if s.calls[id].inv.session == session {
      assert Holding(s.calls[id], session);
    } else if SomeHolding(s, session) {
      var held :| held in s.calls && Holding(s.calls[held], session);
      assert held in t.calls && Holding(t.calls[held], session);
    }
  }

  /** A step that leaves acknowledgements, records and calls alone. */
  lemma UnmovedCurrent(ag: Agent, s: State, t: State, session: string)
    requires Current(ag, s, session) && t.acks == s.acks && t.sh.attested == s.sh.attested && t.calls == s.calls
    ensures Current(ag, t, session)
  {
    hide Digest, LastAck, Holding;
  }

  /** The steps that neither acknowledge nor record: they move one call that holds nothing. */
  lemma QuietMove(ag: Agent, s: State, a: Action)
    requires Step(ag, s, a).Some? && !a.Tick? && !a.Declaring? && !a.AttestReturns? && !a.Recording?
    ensures var t := Step(ag, s, a).value;
            && t.acks == s.acks && t.sh.attested == s.sh.attested
            && a.id in t.calls && t.calls == s.calls[a.id := t.calls[a.id]] && !t.calls[a.id].phase.Acknowledged?
            && (a.id in s.calls ==> !s.calls[a.id].phase.Acknowledged?)
  {
    hide Digest, DecisionOf, AttestRun, Merge, Throttled, AttestedHash, CountRouted, Register, Dedupe, Tag,
      StepAttestReturns, StepRecording;
  }

  lemma CurrentKept(ag: Agent, s: State, a: Action, session: string)
    requires Agree(ag, s) && Current(ag, s, session) && Step(ag, s, a).Some?
    ensures Current(ag, Step(ag, s, a).value, session)
  {
    hide Digest, Current, Agree;
    match a {
      case Tick(_) =>
        UnmovedCurrent(ag, s, Step(ag, s, a).value, session);
      case Declaring(_) =>
        UnmovedCurrent(ag, s, Step(ag, s, a).value, session);
      case AttestReturns(id, w) =>
        ReturnsCurrent(ag, s, id, w, session);
      case Recording(id) =>
        RecordingCurrent(ag, s, id, session);
      case _ =>
        hide Step;
        QuietMove(ag, s, a);
        MovedCurrent(ag, s, Step(ag, s, a).value, a.id, session);
    }
  }

  lemma {:induction false} CurrentAlways(ag: Agent, s: State, actions: seq<Action>, session: string)
    requires Current(ag, s, session) && Exec(ag, s, actions).Some? && AgreeingRun(ag, s, actions)
    ensures Current(ag, Exec(ag, s, actions).value, session)
    decreases |actions|
  {
    hide Step, Current, Agree;
    if actions != [] {
      CurrentKept(ag, s, actions[0], session);
      CurrentAlways(ag, Step(ag, s, actions[0]).value, actions[1..], session);
    }
  }

  /** In every run in which no two calls of a session are ever under way with different attestations, however
      many fail, a session's record is the last attestation the edge acknowledged for it, or a call holds
      that attestation and has yet to record it. */
  lemma RecordIsLastAcknowledged(ag: Agent, actions: seq<Action>, session: string)
    requires Exec(ag, START, actions).Some? && AgreeingRun(ag, START, actions)
    ensures var s := Exec(ag, START, actions).value;
            && (IsCurrent(ag, s, session) || SomeHolding(s, session))
            && (forall id :: id in s.calls && Holding(s.calls[id], session) ==>
                  LastAck(s.acks, session).Some?
                  && Digest(ag, s.calls[id].phase.tools) == Digest(ag, s.acks[LastAck(s.acks, session).value].tools))
  {
    hide Exec, AgreeingRun, Digest;
    assert Current(ag, START, session);
    CurrentAlways(ag, START, actions, session);
  }

  /** In such a run the record is the last acknowledgement exactly when every call that holds one would find its own
      attestation recorded already; in particular when no call holds one. */
  lemma RecordCurrentIff(ag: Agent, actions: seq<Action>, session: string)
    requires Exec(ag, START, actions).Some? && AgreeingRun(ag, START, actions)
    ensures var s := Exec(ag, START, actions).value;
            IsCurrent(ag, s, session) <==>
              forall id :: id in s.calls && Holding(s.calls[id], session) ==>
                session in s.sh.attested && s.sh.attested[session] == Digest(ag, s.calls[id].phase.tools)
  {
    hide Exec, AgreeingRun, Digest, LastAck;
    RecordIsLastAcknowledged(ag, actions, session);
  }

  // ------------------------------------------------------------- the converse

  /** In this world the edge acknowledges an attestation of these tools. */
  ghost predicate Acknowledging(ag: Agent, w: World, tools: seq<string>) {
    AttestRun(ag, w, 0, tools).result.Ok? && AttestRun(ag, w, 0, tools).trips != []
  }

  /** What a call under way does until it is acknowledged. */
  function Lands(s: State, id: nat, w: World): seq<Action>
    requires id in s.calls
  {
    if s.calls[id].phase.Attesting? then [AttestReturns(id, w)] else []
  }

  lemma Landing(ag: Agent, s: State, id: nat, w: World, session: string)
    requires Honest(ag, s) && id in s.calls && Underway(s.calls[id], session)
    requires Acknowledging(ag, w, s.calls[id].phase.tools)
    ensures var run := Exec(ag, s, Lands(s, id, w));
            && run.Some? && Honest(ag, run.value) && id in run.value.calls
            && run.value.calls == s.calls[id := run.value.calls[id]]
            && Holding(run.value.calls[id], session) && run.value.calls[id].phase.tools == s.calls[id].phase.tools
  {
    hide Digest, AttestRun, Honest, Exec;
    if s.calls[id].phase.Attesting? {
      ExecOne(ag, s, AttestReturns(id, w));
      HonestKept(ag, s, AttestReturns(id, w));
    } else {
      ExecNone(ag, s);
    }
  }

  /** These steps leave the session's record behind the last acknowledgement, with neither call left to mend it. */
  ghost predicate LeavesBehind(ag: Agent, s: State, actions: seq<Action>, id: nat, other: nat, session: string) {
    var run := Exec(ag, s, actions);
    && run.Some? && !IsCurrent(ag, run.value, session)
    && id in run.value.calls && other in run.value.calls
    && !Underway(run.value.calls[id], session) && !Underway(run.value.calls[other], session)
  }

  /** A held attestation that is not the last acknowledged leaves the record behind if it is recorded last. */
  lemma RecordedBehind(ag: Agent, s: State, id: nat, other: nat, session: string)
    requires id in s.calls && other in s.calls && id != other
    requires Holding(s.calls[id], session) && Holding(s.calls[other], session)
    requires LastAck(s.acks, session).Some?
    requires Digest(ag, s.calls[id].phase.tools) != Digest(ag, s.acks[LastAck(s.acks, session).value].tools)
    ensures LeavesBehind(ag, s, [Recording(other)] + [Recording(id)], id, other, session)
  {
    hide Digest, LastAck, Exec;
    ExecOne(ag, s, Recording(other));
    ExecSnoc(ag, s, [Recording(other)], Recording(id));
  }

  /** Of two held attestations that differ, one is not the last acknowledged. */
  lemma HeldCanGoStale(ag: Agent, s: State, id: nat, other: nat, session: string) returns (actions: seq<Action>)
    requires Honest(ag, s) && id in s.calls && other in s.calls
    requires Holding(s.calls[id], session) && Holding(s.calls[other], session)
    requires Digest(ag, s.calls[id].phase.tools) != Digest(ag, s.calls[other].phase.tools)
    ensures LeavesBehind(ag, s, actions, id, other, session)
  {
    hide Digest, LastAck, Exec, Honest, LeavesBehind;
    HoldingAcked(ag, s, id, session);
    var last := s.acks[LastAck(s.acks, session).value].tools;
    if Digest(ag, s.calls[id].phase.tools) != Digest(ag, last) {
      actions := [Recording(other)] + [Recording(id)];
      RecordedBehind(ag, s, id, other, session);
    } else {
      actions := [Recording(id)] + [Recording(other)];
      RecordedBehind(ag, s, other, id, session);
      Swapped(ag, s, actions, id, other, session);
    }
  }

  lemma Swapped(ag: Agent, s: State, actions: seq<Action>, id: nat, other: nat, session: string)
    requires LeavesBehind(ag, s, actions, other, id, session)
    ensures LeavesBehind(ag, s, actions, id, other, session)
  {
    hide Exec, IsCurrent;
  }

  /** The converse: at any point of any run, if two calls of a session are under way with different
      attestations and the edge acknowledges both, their own remaining steps can leave the session's record
      behind the last acknowledgement. */
  lemma DifferingCallsCanGoStale(ag: Agent, before: seq<Action>, id: nat, other: nat, w: World)
    requires Exec(ag, START, before).Some?
    requires var s := Exec(ag, START, before).value;
             && id in s.calls && other in s.calls && Differ(ag, s.calls[id], s.calls[other])
             && Acknowledging(ag, w, s.calls[id].phase.tools) && Acknowledging(ag, w, s.calls[other].phase.tools)
    ensures var s := Exec(ag, START, before).value;
            exists actions :: LeavesBehind(ag, s, actions, id, other, s.calls[id].inv.session)
  {
    hide Digest, Exec, Honest, Acknowledging, LeavesBehind;
    StartHonest(ag);
    HonestAlways(ag, START, before);
    var s := Exec(ag, START, before).value;
    var session := s.calls[id].inv.session;
    Landing(ag, s, id, w, session);
    var t := Exec(ag, s, Lands(s, id, w)).value;
    Landing(ag, t, other, w, session);
    var landing := Lands(s, id, w) + Lands(t, other, w);
    ExecConcat(ag, s, Lands(s, id, w), Lands(t, other, w));
    var u := Exec(ag, s, landing).value;
    var rest := HeldCanGoStale(ag, u, id, other, session);
    Continued(ag, s, landing, rest, id, other, session);
  }

  lemma Continued(ag: Agent, s: State, a: seq<Action>, b: seq<Action>, id: nat, other: nat, session: string)
    requires Exec(ag, s, a).Some? && LeavesBehind(ag, Exec(ag, s, a).value, b, id, other, session)
    ensures LeavesBehind(ag, s, a + b, id, other, session)
  {
    hide Exec, IsCurrent;
    ExecConcat(ag, s, a, b);
  }

  lemma HoldingAcked(ag: Agent, s: State, id: nat, session: string)
    requires Honest(ag, s) && id in s.calls && Holding(s.calls[id], session)
    ensures LastAck(s.acks, session).Some?
  {
    hide Digest, TrueAck, LastAck;
    assert CallHonest(s.sh.hooked, s.acks, s.calls[id]);
    var i :| 0 <= i < |s.acks| && s.acks[i].session == session;
    LastAckExists(s.acks, i);
  }
}
