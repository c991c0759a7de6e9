/** What is attested, over every interleaving: records name only acknowledged attestations of tools still
    governed, and a call that goes on without attesting is throttled or attested already. */
module Attestations {
  import opened Options
  import opened Ordering
  import opened Config
  import opened Admission
  import opened Guarantees
  import opened Governance
  import opened Interleaving

  // ------------------------------------------------ the attestation invariant

  /** The tools a call took its snapshot of, until it has its verdict. */
  function ToolsOf(p: Phase): Option<seq<string>> {
    match p
    case Snapshotted(tools) => Some(tools)
    case Attesting(tools, _) => Some(tools)
    case Acknowledged(tools, _) => Some(tools)
    case Ready(tools, _, _) => Some(tools)
    case Asking(tools, _, _) => Some(tools)
    case _ => None
  }

  /** The edge acknowledged an attestation of these tools for the session, sent as the protocol has it. */
  ghost predicate TrueAck(ag: Agent, ack: Ack) {
    && ack.trip.path == ATTEST && ack.trip.body == AttestBody(ag, ack.tools) && Acknowledges(ack.trip.reply)
  }

  /** A true acknowledgement is of a body that reports its posture, tool by tool. */
  lemma TrueAckReports(ag: Agent, ack: Ack)
    requires TrueAck(ag, ack)
    ensures Reports(ag, ack.tools, ack.trip.body)
    ensures forall tool :: tool in ack.tools ==> NamesTool(ack.trip.body, "hooked_tools", tool)
  {
    hide Acknowledges, AttestBody;
    AttestReports(ag, ack.tools);
    forall tool | tool in ack.tools
      ensures NamesTool(ack.trip.body, "hooked_tools", tool)
    {
      hide ListAt;
      ElementIn(ack.tools, tool);
      ListNames(ack.trip.body, "hooked_tools", Elements(ack.tools), tool);
    }
  }

  predicate AckedFor(acks: seq<Ack>, session: string, tools: seq<string>) {
    exists i :: 0 <= i < |acks| && acks[i].session == session && acks[i].tools == tools
  }

  /** A record is the hash of tools acknowledged for its session. */
  ghost predicate RecordTrue(ag: Agent, acks: seq<Ack>, session: string, digest: string) {
    exists i :: 0 <= i < |acks| && acks[i].session == session && digest == Digest(ag, acks[i].tools)
  }

  /** What a call knows: its tool is governed, its snapshot is part of the inventory with that tool in it, and
      acknowledged if it says so. */
  predicate CallHonest(hooked: seq<string>, acks: seq<Ack>, c: Call) {
    && (c.phase.Hooked? ==> c.inv.tool in hooked)
    && (ToolsOf(c.phase).Some? ==> c.inv.tool in ToolsOf(c.phase).value && ToolsOf(c.phase).value <= hooked)
    && (c.phase.Acknowledged? ==> AckedFor(acks, c.inv.session, c.phase.tools))
  }

  ghost predicate Honest(ag: Agent, s: State) {
    && NoDuplicates(s.sh.hooked)
    && (forall i :: 0 <= i < |s.acks| ==> TrueAck(ag, s.acks[i]) && s.acks[i].tools <= s.sh.hooked)
    && (forall session :: session in s.sh.attested ==> RecordTrue(ag, s.acks, session, s.sh.attested[session]))
    && (forall id :: id in s.calls ==> CallHonest(s.sh.hooked, s.acks, s.calls[id]))
  }

  lemma RecordGrows(ag: Agent, acks: seq<Ack>, ack: Ack, session: string, digest: string)
    requires RecordTrue(ag, acks, session, digest)
    ensures RecordTrue(ag, acks + [ack], session, digest)
  {
    var i :| 0 <= i < |acks| && acks[i].session == session && digest == Digest(ag, acks[i].tools);
    assert (acks + [ack])[i] == acks[i];
  }

  lemma AckedGrows(acks: seq<Ack>, ack: Ack, session: string, tools: seq<string>)
    ensures AckedFor(acks, session, tools) ==> AckedFor(acks + [ack], session, tools)
    ensures ack.session == session && ack.tools == tools ==> AckedFor(acks + [ack], session, tools)
  {
    if AckedFor(acks, session, tools) {
      var i :| 0 <= i < |acks| && acks[i].session == session && acks[i].tools == tools;
      assert (acks + [ack])[i] == acks[i];
    }
    assert (acks + [ack])[|acks|] == ack;
  }

  /** A grown inventory keeps what was honest. */
  lemma InventoryGrows(ag: Agent, s: State, t: State)
    requires Honest(ag, s)
    requires t.calls == s.calls && t.acks == s.acks && t.sh.attested == s.sh.attested
    requires s.sh.hooked <= t.sh.hooked && NoDuplicates(t.sh.hooked)
    ensures Honest(ag, t)
  {
    hide Digest, TrueAck, RecordTrue, AckedFor;
  }

  /** Moving one call keeps the rest honest. */
  lemma MovedHonest(ag: Agent, s: State, t: State, id: nat)
    requires Honest(ag, s) && id in t.calls && t.calls == s.calls[id := t.calls[id]]
    requires t.acks == s.acks && t.sh.attested == s.sh.attested && t.sh.hooked == s.sh.hooked
    requires CallHonest(t.sh.hooked, t.acks, t.calls[id])
    ensures Honest(ag, t)
  {
    hide Digest, TrueAck, RecordTrue, AckedFor, CallHonest;
  }

  lemma RegisteringHonest(ag: Agent, s: State, id: nat)
    requires Honest(ag, s) && Step(ag, s, Registering(id)).Some?
    ensures Honest(ag, Step(ag, s, Registering(id)).value)
  {
    hide Digest, TrueAck, RecordTrue, AckedFor;
    var t := Step(ag, s, Registering(id)).value;
    RegisterElements(s.sh.hooked, s.calls[id].inv.tool);
    var grown := s.(sh := t.sh);
    InventoryGrows(ag, s, grown);
    MovedHonest(ag, grown, t, id);
  }

  lemma ReturnsHonest(ag: Agent, s: State, id: nat, w: World)
    requires Honest(ag, s) && Step(ag, s, AttestReturns(id, w)).Some?
    ensures Honest(ag, Step(ag, s, AttestReturns(id, w)).value)
  {
    hide Digest, AttestBody, RecordTrue, AckedFor, RequestRun, Acknowledges;
    var t := Step(ag, s, AttestReturns(id, w)).value;
    var session, tools := s.calls[id].inv.session, s.calls[id].phase.tools;
    assert CallHonest(s.sh.hooked, s.acks, s.calls[id]);
    SuccessAnswered(ag.setup, w, 0, ATTEST, AttestBody(ag, tools), ATTEST_TIMEOUT);
    if t.acks == s.acks {
      MovedHonest(ag, s, t, id);
    } else {
      var ack := t.acks[|s.acks|];
      assert t.acks == s.acks + [ack];
      forall session | session in t.sh.attested
        ensures RecordTrue(ag, t.acks, session, t.sh.attested[session])
      {
        RecordGrows(ag, s.acks, ack, session, t.sh.attested[session]);
      }
      forall other | other in t.calls
        ensures CallHonest(t.sh.hooked, t.acks, t.calls[other])
      {
        if other in s.calls {
          assert CallHonest(s.sh.hooked, s.acks, s.calls[other]);
        }
        if t.calls[other].phase.Acknowledged? {
          AckedGrows(s.acks, ack, t.calls[other].inv.session, t.calls[other].phase.tools);
        }
      }
    }
  }

  lemma RecordingHonest(ag: Agent, s: State, id: nat)
    requires Honest(ag, s) && Step(ag, s, Recording(id)).Some?
    ensures Honest(ag, Step(ag, s, Recording(id)).value)
  {
    hide Digest, TrueAck;
    var t := Step(ag, s, Recording(id)).value;
    var session, tools := s.calls[id].inv.session, s.calls[id].phase.tools;
    assert CallHonest(s.sh.hooked, s.acks, s.calls[id]);
    assert RecordTrue(ag, s.acks, session, Digest(ag, tools));
    hide RecordTrue, AckedFor;
    assert Honest(ag, s.(sh := t.sh));
    MovedHonest(ag, s.(sh := t.sh), t, id);
  }

  lemma DeclaringHonest(ag: Agent, s: State, names: seq<string>)
    requires Honest(ag, s)
    ensures Honest(ag, Step(ag, s, Declaring(names)).value)
  {
    hide Digest, TrueAck, RecordTrue, AckedFor;
    DedupeElements(s.sh.hooked, names);
    InventoryGrows(ag, s, Step(ag, s, Declaring(names)).value);
  }

  /** The other steps touch neither inventory nor records, and take no snapshot but of the inventory. */
  lemma OthersHonest(ag: Agent, s: State, a: Action)
    requires Honest(ag, s) && Step(ag, s, a).Some?
    requires !a.Tick? && !a.Declaring? && !a.Registering? && !a.AttestReturns? && !a.Recording?
    ensures Honest(ag, Step(ag, s, a).value)
  {
    hide Digest, TrueAck, RecordTrue, AckedFor, DecisionOf, Merge, AttestRun, Throttled, AttestedHash, CountRouted;
    var t := Step(ag, s, a).value;
    if a.id in s.calls {
      assert CallHonest(s.sh.hooked, s.acks, s.calls[a.id]);
    }
    MovedHonest(ag, s, t, a.id);
  }

  lemma HonestKept(ag: Agent, s: State, a: Action)
    requires Honest(ag, s) && Step(ag, s, a).Some?
    ensures Honest(ag, Step(ag, s, a).value)
  {
    match a {
      case Tick(_) =>
        InventoryGrows(ag, s, Step(ag, s, a).value);
      case Declaring(names) =>
        DeclaringHonest(ag, s, names);
      case Registering(id) =>
        RegisteringHonest(ag, s, id);
      case AttestReturns(id, w) =>
        ReturnsHonest(ag, s, id, w);
      case Recording(id) =>
        RecordingHonest(ag, s, id);
      case _ =>
        OthersHonest(ag, s, a);
    }
  }

  lemma {:induction false} HonestAlways(ag: Agent, s: State, actions: seq<Action>)
    requires Honest(ag, s) && Exec(ag, s, actions).Some?
    ensures Honest(ag, Exec(ag, s, actions).value)
    decreases |actions|
  {
    hide Step, Honest;
    if actions != [] {
      HonestKept(ag, s, actions[0]);
      HonestAlways(ag, Step(ag, s, actions[0]).value, actions[1..]);
    }
  }

  lemma StartHonest(ag: Agent)
    ensures Honest(ag, START)
  {
  }

  /** In every run the inventory has no duplicates, and every session's record is the hash of an attestation
      that was sent as the protocol has it, that the edge acknowledged, and whose tools are all still governed. */
  lemma RecordsAreAcknowledged(ag: Agent, actions: seq<Action>, session: string)
    requires Exec(ag, START, actions).Some?
    ensures NoDuplicates(Exec(ag, START, actions).value.sh.hooked)
    ensures var s := Exec(ag, START, actions).value;
            session in s.sh.attested ==>
              exists i :: 0 <= i < |s.acks| && s.acks[i].session == session
                && s.sh.attested[session] == Digest(ag, s.acks[i].tools)
                && TrueAck(ag, s.acks[i]) && Elements(s.acks[i].tools) <= Elements(s.sh.hooked)
                && Reports(ag, s.acks[i].tools, s.acks[i].trip.body)
  {
    hide Exec, TrueAck, Reports;
    HonestAlways(ag, START, actions);
    var s := Exec(ag, START, actions).value;
    if session in s.sh.attested {
      assert RecordTrue(ag, s.acks, session, s.sh.attested[session]);
      var i :| 0 <= i < |s.acks| && s.acks[i].session == session && s.sh.attested[session] == Digest(ag, s.acks[i].tools);
      assert s.acks[i].tools <= s.sh.hooked;
      TrueAckReports(ag, s.acks[i]);
    }
  }

  /** The inventories that occur in a state: the ones acknowledged and the ones calls took their snapshots of. */
  function Occurring(s: State): set<seq<string>> {
    (set i | 0 <= i < |s.acks| :: s.acks[i].tools)
    + (set id | id in s.calls && ToolsOf(s.calls[id].phase).Some? :: ToolsOf(s.calls[id].phase).value)
  }

  /** The edge acknowledged for the session an attestation with the digest of these tools; if no digests that
      occur collide, what it was sent names each of them as hooked. */
  ghost predicate NamedByAck(ag: Agent, s: State, session: string, tools: seq<string>) {
    exists i :: 0 <= i < |s.acks| && s.acks[i].session == session && TrueAck(ag, s.acks[i])
      && Digest(ag, s.acks[i].tools) == Digest(ag, tools)
      && (DistinctDigests(ag, Occurring(s)) ==>
            Elements(s.acks[i].tools) == Elements(tools)
            && forall tool :: tool in tools ==> NamesTool(s.acks[i].trip.body, "hooked_tools", tool))
  }

  /** A record of a call's snapshot is an attestation that named it. */
  lemma RecordNames(ag: Agent, s: State, session: string, id: nat)
    requires Honest(ag, s) && id in s.calls && ToolsOf(s.calls[id].phase).Some?
    requires RecordTrue(ag, s.acks, session, Digest(ag, ToolsOf(s.calls[id].phase).value))
    ensures NamedByAck(ag, s, session, ToolsOf(s.calls[id].phase).value)
  {
    hide Digest, TrueAck, DistinctDigests, Elements, NamesTool;
    var tools := ToolsOf(s.calls[id].phase).value;
    var i :| 0 <= i < |s.acks| && s.acks[i].session == session && Digest(ag, tools) == Digest(ag, s.acks[i].tools);
    if DistinctDigests(ag, Occurring(s)) {
      DigestsTellNames(ag, Occurring(s), s.acks[i].tools, tools);
      TrueAckReports(ag, s.acks[i]);
      forall tool | tool in tools
        ensures NamesTool(s.acks[i].trip.body, "hooked_tools", tool)
      {
        ElementIn(tools, tool);
        ElementIn(s.acks[i].tools, tool);
      }
    }
    assert TrueAck(ag, s.acks[i]);
  }

  /** At any point of any run, a call that considers attesting goes on without a record of its configuration
      and with nothing sent exactly when it is throttled; if it goes on and is not throttled, its configuration
      is in an attestation the edge acknowledged for its session. */
  lemma SkippedIsThrottledOrAttested(ag: Agent, actions: seq<Action>, id: nat)
    requires Exec(ag, START, actions).Some?
    requires Step(ag, Exec(ag, START, actions).value, Considering(id)).Some?
    requires Digest(ag, Exec(ag, START, actions).value.calls[id].phase.tools) != ""
    ensures var s := Exec(ag, START, actions).value;
            var t, c := Step(ag, s, Considering(id)).value, s.calls[id];
            && (t.calls[id].phase.Ready? && AttestedHash(s.sh, c.inv.session) != Digest(ag, c.phase.tools)
                <==> Throttled(s.sh, c.inv.session, s.clock))
            && (t.calls[id].phase.Ready? && !Throttled(s.sh, c.inv.session, s.clock) ==>
                  NamedByAck(ag, s, c.inv.session, c.phase.tools))
  {
    hide Exec, Digest, TrueAck, DecisionOf, AttestRun, Merge, Dedupe, Register, NamedByAck;
    var s := Exec(ag, START, actions).value;
    var t, c := Step(ag, s, Considering(id)).value, s.calls[id];
    SkipsUnattestedIff(s.sh, c.inv.session, Digest(ag, c.phase.tools), s.clock);
    if t.calls[id].phase.Ready? && !Throttled(s.sh, c.inv.session, s.clock) {
      HonestAlways(ag, START, actions);
      RecordNames(ag, s, c.inv.session, id);
    }
  }

  /** The inventory only grows, in order. */
  lemma {:induction false} InventoryOnlyGrows(ag: Agent, s: State, actions: seq<Action>)
    requires Exec(ag, s, actions).Some?
    ensures s.sh.hooked <= Exec(ag, s, actions).value.sh.hooked
    decreases |actions|
  {
    if actions != [] {
      InventoryStep(ag, s, actions[0]);
      hide Step;
      InventoryOnlyGrows(ag, Step(ag, s, actions[0]).value, actions[1..]);
    }
  }

  lemma InventoryStep(ag: Agent, s: State, a: Action)
    requires Step(ag, s, a).Some?
    ensures s.sh.hooked <= Step(ag, s, a).value.sh.hooked
    ensures Elements(Step(ag, s, a).value.sh.hooked)
         == Elements(s.sh.hooked)
            + (if a.Declaring? then Elements(a.names) - {""} else if a.Registering? then {s.calls[a.id].inv.tool} else {})
  {
    hide Digest, DecisionOf, AttestRun, Merge, Elements;
    if a.Declaring? {
      DedupeElements(s.sh.hooked, a.names);
    } else if a.Registering? {
      RegisterElements(s.sh.hooked, s.calls[a.id].inv.tool);
    }
  }
}
