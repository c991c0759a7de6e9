/** When an admitted call's configuration is attested, over every interleaving: exactly when the call was neither
    throttled nor had its own attestation fail. */
module Coverage {
  import opened Admission
  import opened Governance
  import opened Interleaving
  import opened Attestations

  /** The call has looked at the shared state and awaits its decision. */
  predicate Looked(p: Phase) {
    p.Attesting? || p.Acknowledged? || p.Ready? || p.Asking?
  }

  /** What the call saw was a record of its own configuration. */
  ghost predicate SawRecord(ag: Agent, c: Call)
    requires Looked(c.phase)
  {
    AttestedHash(c.phase.saw.sh, c.inv.session) == Digest(ag, c.phase.tools)
  }

  /** What the call saw was a recent attempt of a session never attested. */
  predicate SawThrottle(c: Call)
    requires Looked(c.phase)
  {
    Throttled(c.phase.saw.sh, c.inv.session, c.phase.saw.at)
  }

  /** The edge acknowledged an attestation of this very call. */
  predicate AckedTo(acks: seq<Ack>, id: nat) {
    exists i :: 0 <= i < |acks| && acks[i].id == id
  }

  /** As far as a call can know its configuration is attested: it saw a record of it, or the edge acknowledged
      the call's own attestation. */
  ghost predicate KnownAttested(ag: Agent, s: State, id: nat)
    requires id in s.calls && Looked(s.calls[id].phase)
  {
    SawRecord(ag, s.calls[id]) || AckedTo(s.acks, id)
  }

  // -------------------------------------------------------------- invariant

  /** A call has an acknowledgement exactly when it was due to attest and its attestation came back well. */
  ghost predicate AckMatches(ag: Agent, acked: bool, c: Call) {
    var p := c.phase;
    if p.Attesting? then !acked && !SawRecord(ag, c) && !SawThrottle(c)
    else if p.Acknowledged? then acked && !SawRecord(ag, c) && !SawThrottle(c)
    else if p.Ready? || p.Asking? then
      && (p.failed ==> !SawRecord(ag, c) && !SawThrottle(c))
      && (acked <==> !SawRecord(ag, c) && !SawThrottle(c) && !p.failed)
    else p.Arrived? || p.Hooked? || p.Snapshotted? ==> !acked
  }

  /** An acknowledgement of a call's own attestation, or a record it saw, is true of its snapshot. */
  ghost predicate Grounded(ag: Agent, acks: seq<Ack>, id: nat, c: Call) {
    Looked(c.phase) ==>
      && (AckedTo(acks, id) ==> RecordTrue(ag, acks, c.inv.session, Digest(ag, c.phase.tools)))
      && (SawRecord(ag, c) && Digest(ag, c.phase.tools) != "" ==>
            RecordTrue(ag, acks, c.inv.session, Digest(ag, c.phase.tools)))
  }

  ghost predicate Traced(ag: Agent, s: State) {
    && (forall i :: 0 <= i < |s.acks| ==> s.acks[i].id in s.calls)
    && (forall id :: id in s.calls ==> AckMatches(ag, AckedTo(s.acks, id), s.calls[id]))
    && (forall id :: id in s.calls ==> Grounded(ag, s.acks, id, s.calls[id]))
  }

  lemma AckedToSnoc(acks: seq<Ack>, ack: Ack, id: nat)
    ensures AckedTo(acks + [ack], id) <==> AckedTo(acks, id) || ack.id == id
  {
    var all := acks + [ack];
    assert all[|acks|] == ack;
    assert forall i :: 0 <= i < |acks| ==> all[i] == acks[i];
  }

  /** Moving one call, with nothing newly acknowledged. */
  lemma MovedTraced(ag: Agent, s: State, t: State, id: nat)
    requires Traced(ag, s) && t.acks == s.acks && id in t.calls && t.calls == s.calls[id := t.calls[id]]
    requires AckMatches(ag, AckedTo(t.acks, id), t.calls[id]) && Grounded(ag, t.acks, id, t.calls[id])
    ensures Traced(ag, t)
  {
    hide AckMatches, Grounded, AckedTo;
  }

  lemma ArriveTraced(ag: Agent, s: State, id: nat, inv: Invocation)
    requires Traced(ag, s) && Step(ag, s, Arrive(id, inv)).Some?
    ensures Traced(ag, Step(ag, s, Arrive(id, inv)).value)
  {
    hide Digest, RecordTrue;
    MovedTraced(ag, s, Step(ag, s, Arrive(id, inv)).value, id);
  }

  lemma ConsideringTraced(ag: Agent, s: State, id: nat)
    requires Honest(ag, s) && Traced(ag, s) && Step(ag, s, Considering(id)).Some?
    ensures Traced(ag, Step(ag, s, Considering(id)).value)
  {
    hide Digest, RecordTrue, TrueAck, AckedTo;
    var t := Step(ag, s, Considering(id)).value;
    var session := s.calls[id].inv.session;
    assert AckMatches(ag, AckedTo(s.acks, id), s.calls[id]);
    if session in s.sh.attested {
      assert RecordTrue(ag, s.acks, session, s.sh.attested[session]);
    }
    MovedTraced(ag, s, t, id);
  }

  lemma ReturnsTraced(ag: Agent, s: State, id: nat, w: World)
    requires Traced(ag, s) && Step(ag, s, AttestReturns(id, w)).Some?
    ensures Traced(ag, Step(ag, s, AttestReturns(id, w)).value)
  {
    hide Digest, AttestRun, RecordTrue, Throttled, AttestedHash, AckedTo;
    var t := Step(ag, s, AttestReturns(id, w)).value;
    assert AckMatches(ag, AckedTo(s.acks, id), s.calls[id]) && Grounded(ag, s.acks, id, s.calls[id]);
    if t.acks == s.acks {
      MovedTraced(ag, s, t, id);
    } else {
      var ack := t.acks[|s.acks|];
      assert t.acks == s.acks + [ack];
      forall other | other in t.calls
        ensures AckMatches(ag, AckedTo(t.acks, other), t.calls[other]) && Grounded(ag, t.acks, other, t.calls[other])
      {
        AckedToSnoc(s.acks, ack, other);
        if other == id {
          AckIsRecordTrue(ag, s.acks, ack);
        } else {
          assert AckMatches(ag, AckedTo(s.acks, other), s.calls[other]);
          assert Grounded(ag, s.acks, other, s.calls[other]);
          GroundedGrows(ag, s.acks, ack, other, s.calls[other]);
        }
      }
    }
  }

  lemma AckIsRecordTrue(ag: Agent, acks: seq<Ack>, ack: Ack)
    ensures RecordTrue(ag, acks + [ack], ack.session, Digest(ag, ack.tools))
  {
    assert (acks + [ack])[|acks|] == ack;
  }

  lemma GroundedGrows(ag: Agent, acks: seq<Ack>, ack: Ack, id: nat, c: Call)
    requires Grounded(ag, acks, id, c) && ack.id != id
    ensures Grounded(ag, acks + [ack], id, c)
  {
    hide Digest, RecordTrue, AckedTo;
    AckedToSnoc(acks, ack, id);
    if Looked(c.phase) && RecordTrue(ag, acks, c.inv.session, Digest(ag, c.phase.tools)) {
      RecordGrows(ag, acks, ack, c.inv.session, Digest(ag, c.phase.tools));
    }
  }

  /** The other steps: nothing new is acknowledged, and what a call saw stays with it. */
  lemma OthersTraced(ag: Agent, s: State, a: Action)
    requires Traced(ag, s) && Step(ag, s, a).Some?
    requires !a.Tick? && !a.Declaring? && !a.Arrive? && !a.Considering? && !a.AttestReturns?
    ensures Traced(ag, Step(ag, s, a).value)
  {
    hide Digest, RecordTrue, AckedTo, DecisionOf, Merge, Throttled, AttestedHash, CountRouted, Register, Tag;
    var t := Step(ag, s, a).value;
    assert AckMatches(ag, AckedTo(s.acks, a.id), s.calls[a.id]) && Grounded(ag, s.acks, a.id, s.calls[a.id]);
    MovedTraced(ag, s, t, a.id);
  }

  lemma TracedKept(ag: Agent, s: State, a: Action)
    requires Honest(ag, s) && Traced(ag, s) && Step(ag, s, a).Some?
    ensures Traced(ag, Step(ag, s, a).value)
  {
    hide Honest, Digest, AckMatches, Grounded;
    match a {
      case Tick(_) =>
      case Declaring(_) =>
      case Arrive(id, inv) =>
        ArriveTraced(ag, s, id, inv);
      case Considering(id) =>
        ConsideringTraced(ag, s, id);
      case AttestReturns(id, w) =>
        ReturnsTraced(ag, s, id, w);
      case _ =>
        OthersTraced(ag, s, a);
    }
  }

  lemma {:induction false} TracedAlways(ag: Agent, s: State, actions: seq<Action>)
    requires Honest(ag, s) && Traced(ag, s) && Exec(ag, s, actions).Some?
    ensures Honest(ag, Exec(ag, s, actions).value) && Traced(ag, Exec(ag, s, actions).value)
    decreases |actions|
  {
    hide Step, Honest, Traced;
    if actions != [] {
      HonestKept(ag, s, actions[0]);
      TracedKept(ag, s, actions[0]);
      TracedAlways(ag, Step(ag, s, actions[0]).value, actions[1..]);
    }
  }

  /** In every run, of a call that has been admitted and awaits its decision: its configuration is known to be
      attested exactly when it was neither throttled nor had its own attestation fail. If it is, the edge
      acknowledged for its session an attestation naming exactly its tools; what was sent names its own as hooked. */
  lemma AdmittedAttestedIff(ag: Agent, actions: seq<Action>, id: nat)
    requires Exec(ag, START, actions).Some?
    requires var s := Exec(ag, START, actions).value;
             id in s.calls && s.calls[id].phase.Asking? && Digest(ag, s.calls[id].phase.tools) != ""
    ensures var s := Exec(ag, START, actions).value;
            var c := s.calls[id];
            && (KnownAttested(ag, s, id) <==> !SawThrottle(c) && !c.phase.failed)
            && (KnownAttested(ag, s, id) ==> NamedByAck(ag, s, c.inv.session, c.phase.tools))
            && c.inv.tool in c.phase.tools
            && (KnownAttested(ag, s, id) && DistinctDigests(ag, Occurring(s)) ==>
                  exists i :: 0 <= i < |s.acks| && s.acks[i].session == c.inv.session
                    && NamesTool(s.acks[i].trip.body, "hooked_tools", c.inv.tool))
            && (c.phase.failed ==> !AckedTo(s.acks, id))
  {
    hide Exec, Digest, RecordTrue, TrueAck, AckedTo, Occurring, NamesTool, DistinctDigests;
    TracedAlways(ag, START, actions);
    var s := Exec(ag, START, actions).value;
    assert AckMatches(ag, AckedTo(s.acks, id), s.calls[id]) && Grounded(ag, s.acks, id, s.calls[id]);
    assert CallHonest(s.sh.hooked, s.acks, s.calls[id]);
    if KnownAttested(ag, s, id) {
      RecordNames(ag, s, s.calls[id].inv.session, id);
    }
  }
}
