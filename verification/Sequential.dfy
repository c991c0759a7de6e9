/** Runs in which no two calls overlap and every attestation that is sent succeeds: how many attestations a
    session sends, and what they cover. */
module Sequential {
  import opened Options
  import opened Ordering
  import opened Admission
  import opened Guarantees
  import opened Governance

  datatype Event = Declaring(names: seq<string>) | Calling(c: Invocation, now: int)

  /** What a call leaves in the record: its session and tool, the inventory as it was once the tool was
      registered, and the round trips of its attestation, none if it sent none. */
  datatype Visit = Visit(session: string, tool: string, tools: seq<string>, trips: seq<Trip>)

  datatype Walk = Walk(sh: Shared, next: nat, visits: seq<Visit>)

  const OUTSET := Walk(Shared([], map[], map[], NO_STATS), 0, [])

  /** The shared state once a call has registered its tool. */
  function WithTool(sh: Shared, c: Invocation): Shared {
    sh.(hooked := Register(sh.hooked, c.tool))
  }

  ghost function VisitOf(ag: Agent, w: World, k: Walk, c: Invocation, now: int): Visit {
    var sh := WithTool(k.sh, c);
    Visit(c.session, c.tool, sh.hooked, EnsureAlone(ag, w, k.next, sh, c.session, now).trips)
  }

  ghost function Go(ag: Agent, w: World, k: Walk, e: Event): Walk {
    match e
    case Declaring(names) => k.(sh := k.sh.(hooked := Dedupe(k.sh.hooked, names)))
    case Calling(c, now) =>
      var effect := AdmitAlone(ag, w, k.next, k.sh, c, now);
      Walk(effect.sh, effect.next, k.visits + [VisitOf(ag, w, k, c, now)])
  }

  ghost function GoAll(ag: Agent, w: World, k: Walk, events: seq<Event>): Walk
    decreases |events|
  {
    if events == [] then k else GoAll(ag, w, Go(ag, w, k, events[0]), events[1..])
  }

  /** If the event is a call that is due to attest, its attestation succeeds. */
  ghost predicate Succeeds(ag: Agent, w: World, k: Walk, e: Event) {
    e.Calling? ==>
      var sh := WithTool(k.sh, e.c);
      Consider(sh, e.c.session, Digest(ag, sh.hooked), e.now).0 ==> AttestRun(ag, w, k.next, sh.hooked).result.Ok?
  }

  ghost predicate AllSucceed(ag: Agent, w: World, k: Walk, events: seq<Event>)
    decreases |events|
  {
    events != [] ==> Succeeds(ag, w, k, events[0]) && AllSucceed(ag, w, Go(ag, w, k, events[0]), events[1..])
  }

  // -------------------------------------------------------- what is counted

  /** The attestations a session sent. */
  function Sent(visits: seq<Visit>, session: string): nat {
    if visits == [] then 0
    else
      var last := visits[|visits| - 1];
      Sent(visits[..|visits| - 1], session) + if last.session == session && last.trips != [] then 1 else 0
  }

  /** The distinct sets of tools a session's calls saw. */
  function Seen(visits: seq<Visit>, session: string): set<set<string>> {
    set i | 0 <= i < |visits| && visits[i].session == session :: Elements(visits[i].tools)
  }

  /** The inventories the calls of a run saw. */
  function Inventories(visits: seq<Visit>): set<seq<string>> {
    set i | 0 <= i < |visits| :: visits[i].tools
  }

  /** Where the session last sent an attestation, if it did. */
  function LastSent(visits: seq<Visit>, session: string): (r: Option<nat>)
    ensures r.Some? ==> r.value < |visits| && visits[r.value].session == session && visits[r.value].trips != []
  {
    if visits == [] then None
    else
      var n := |visits| - 1;
      if visits[n].session == session && visits[n].trips != [] then Some(n) else LastSent(visits[..n], session)
  }

  /** The attestation of a visit was sent as the protocol has it and acknowledged. */
  ghost predicate WasAcknowledged(ag: Agent, v: Visit) {
    && v.trips != [] && Acknowledges(Last(v.trips).reply)
    && Last(v.trips).path == ATTEST && Last(v.trips).body == AttestBody(ag, v.tools)
  }

  /** The last attestation the session of call i had sent by then named its tool as hooked, and was acknowledged. */
  ghost predicate Covered(ag: Agent, visits: seq<Visit>, i: nat)
    requires i < |visits|
  {
    var j := LastSent(visits[..i + 1], visits[i].session);
    && j.Some? && WasAcknowledged(ag, visits[j.value])
    && NamesTool(Last(visits[j.value].trips).body, "hooked_tools", visits[i].tool)
    && visits[i].tool in visits[j.value].tools && Elements(visits[j.value].tools) == Elements(visits[i].tools)
  }

  // ------------------------------------------------------------ invariant

  /** A session that has called: its record is its last attestation, which took in all it had seen by then. */
  ghost predicate Recorded(ag: Agent, k: Walk, session: string) {
    var j := LastSent(k.visits, session);
    && j.Some? && session in k.sh.attested && k.sh.attested[session] == Digest(ag, k.visits[j.value].tools)
    && WasAcknowledged(ag, k.visits[j.value])
    && Elements(k.visits[j.value].tools) <= Elements(k.sh.hooked)
    && Elements(k.visits[j.value].tools) in Seen(k.visits, session)
    && (forall tools :: tools in Seen(k.visits, session) ==> tools <= Elements(k.visits[j.value].tools))
  }

  ghost predicate Untouched(k: Walk, session: string) {
    session !in k.sh.attested && session !in k.sh.attempted && Seen(k.visits, session) == {} && LastSent(k.visits, session) == None
  }

  ghost predicate Settled(ag: Agent, k: Walk) {
    && (forall session :: Recorded(ag, k, session) || Untouched(k, session))
    && (forall session :: Sent(k.visits, session) == |Seen(k.visits, session)|)
    && (forall i :: 0 <= i < |k.visits| ==> Covered(ag, k.visits, i))
  }

  lemma SeenSnoc(visits: seq<Visit>, v: Visit, session: string)
    ensures Seen(visits + [v], session)
         == Seen(visits, session) + if v.session == session then {Elements(v.tools)} else {}
  {
    hide Elements;
    var all := visits + [v];
    forall tools | tools in Seen(visits, session)
      ensures tools in Seen(all, session)
    {
      var i :| 0 <= i < |visits| && visits[i].session == session && Elements(visits[i].tools) == tools;
      assert all[i] == visits[i];
    }
    assert all[|visits|] == v;
    forall tools | tools in Seen(all, session)
      ensures tools in Seen(visits, session) || (v.session == session && tools == Elements(v.tools))
    {
      var i :| 0 <= i < |all| && all[i].session == session && Elements(all[i].tools) == tools;
      if i < |visits| {
        assert all[i] == visits[i];
      }
    }
  }

  lemma InventoriesSnoc(visits: seq<Visit>, v: Visit)
    ensures Inventories(visits + [v]) == Inventories(visits) + {v.tools}
  {
    var all := visits + [v];
    assert forall i :: 0 <= i < |visits| ==> all[i] == visits[i];
    assert all[|visits|] == v;
  }

  lemma LogSnoc(visits: seq<Visit>, v: Visit, session: string)
    ensures Sent(visits + [v], session) == Sent(visits, session) + if v.session == session && v.trips != [] then 1 else 0
    ensures LastSent(visits + [v], session)
         == if v.session == session && v.trips != [] then Some(|visits|) else LastSent(visits, session)
  {
    assert (visits + [v])[..|visits|] == visits;
  }

  lemma CoveredSnoc(ag: Agent, visits: seq<Visit>, v: Visit, i: nat)
    requires i < |visits| && Covered(ag, visits, i)
    ensures Covered(ag, visits + [v], i)
  {
    hide WasAcknowledged;
    assert (visits + [v])[..i + 1] == visits[..i + 1];
  }

  // ---------------------------------------------------------------- steps

  /** A call whose session is not held back attests exactly when the session's record differs. */
  lemma CallEffect(ag: Agent, w: World, k: Walk, c: Invocation, now: int)
    requires c.session in k.sh.attempted ==> c.session in k.sh.attested
    requires Succeeds(ag, w, k, Calling(c, now))
    ensures var t, v := Go(ag, w, k, Calling(c, now)), VisitOf(ag, w, k, c, now);
            var digest := Digest(ag, v.tools);
            && t.visits == k.visits + [v] && t.sh.hooked == v.tools == Register(k.sh.hooked, c.tool)
            && (if AttestedHash(k.sh, c.session) == digest then
                  v.trips == [] && t.sh.attested == k.sh.attested && t.sh.attempted == k.sh.attempted
                else
                  && v.trips != [] && WasAcknowledged(ag, v) && t.sh.attested == k.sh.attested[c.session := digest]
                  && t.sh.attempted == k.sh.attempted[c.session := now])
  {
    hide Digest, Register, AttestBody, RequestRun, DecideRun, Merge, Acknowledges;
    var tools := Register(k.sh.hooked, c.tool);
    SuccessAnswered(ag.setup, w, k.next, ATTEST, AttestBody(ag, tools), Config.ATTEST_TIMEOUT);
  }

  /** An attestation is due exactly when the session sees its set of tools for the first time: sets only grow, so
      an earlier one never comes back. */
  lemma DueIffUnseen(ag: Agent, k: Walk, c: Invocation)
    requires DistinctDigests(ag, Inventories(k.visits) + {Register(k.sh.hooked, c.tool)})
    requires Recorded(ag, k, c.session) || Untouched(k, c.session)
    ensures var tools := Register(k.sh.hooked, c.tool);
            Digest(ag, tools) != "" &&
            (AttestedHash(k.sh, c.session) == Digest(ag, tools) <==> Elements(tools) in Seen(k.visits, c.session))
  {
    var tools := Register(k.sh.hooked, c.tool);
    assert Digest(ag, tools) != "";
    hide Digest, Seen, LastSent, DistinctDigests, Elements, WasAcknowledged;
    RegisterElements(k.sh.hooked, c.tool);
    if Recorded(ag, k, c.session) {
      var last := k.visits[LastSent(k.visits, c.session).value].tools;
      DigestsTellNames(ag, Inventories(k.visits) + {tools}, last, tools);
    }
  }

  /** A call as the log sees it: it attests if its session sees its tools for the first time, and leaves the
      session's record naming them. */
  ghost predicate Appends(ag: Agent, k: Walk, t: Walk, v: Visit) {
    && t.visits == k.visits + [v] && t.sh.hooked == v.tools && v.tool in v.tools
    && Elements(k.sh.hooked) <= Elements(v.tools)
    && v.session in t.sh.attested && t.sh.attested[v.session] == Digest(ag, v.tools)
    && (if Elements(v.tools) in Seen(k.visits, v.session) then
          v.trips == [] && t.sh.attested == k.sh.attested && t.sh.attempted == k.sh.attempted
        else
          && v.trips != [] && WasAcknowledged(ag, v) && t.sh.attested.Keys == k.sh.attested.Keys + {v.session}
          && (forall s :: s in k.sh.attested && s != v.session ==> t.sh.attested[s] == k.sh.attested[s])
          && t.sh.attempted.Keys == k.sh.attempted.Keys + {v.session})
  }

  lemma VisitShape(ag: Agent, w: World, k: Walk, c: Invocation, now: int)
    ensures var v := VisitOf(ag, w, k, c, now);
            v.session == c.session && v.tool == c.tool && v.tools == Register(k.sh.hooked, c.tool) && c.tool in v.tools
  {
    hide EnsureAlone;
  }

  lemma GoVisits(ag: Agent, w: World, k: Walk, c: Invocation, now: int)
    ensures Go(ag, w, k, Calling(c, now)).visits == k.visits + [VisitOf(ag, w, k, c, now)]
  {
    hide AdmitAlone, VisitOf;
  }

  lemma CallAppends(ag: Agent, w: World, k: Walk, c: Invocation, now: int)
    requires DistinctDigests(ag, Inventories(k.visits) + {Register(k.sh.hooked, c.tool)})
    requires Recorded(ag, k, c.session) || Untouched(k, c.session)
    requires c.session in k.sh.attempted ==> c.session in k.sh.attested
    requires Succeeds(ag, w, k, Calling(c, now))
    ensures Appends(ag, k, Go(ag, w, k, Calling(c, now)), VisitOf(ag, w, k, c, now))
  {
    hide Digest, Seen, LastSent, DistinctDigests, Elements, WasAcknowledged, Go, Register, Succeeds, VisitOf;
    hide Recorded, Untouched;
    VisitShape(ag, w, k, c, now);
    CallEffect(ag, w, k, c, now);
    DueIffUnseen(ag, k, c);
    RegisterElements(k.sh.hooked, c.tool);
  }

  lemma OwnSession(ag: Agent, k: Walk, t: Walk, v: Visit)
    requires DistinctDigests(ag, Inventories(t.visits)) && Appends(ag, k, t, v)
    requires Recorded(ag, k, v.session) || Untouched(k, v.session)
    requires Sent(k.visits, v.session) == |Seen(k.visits, v.session)|
    ensures Recorded(ag, t, v.session) && Sent(t.visits, v.session) == |Seen(t.visits, v.session)|
    ensures Elements(t.visits[LastSent(t.visits, v.session).value].tools) == Elements(v.tools)
  {
    hide Digest, Seen, LastSent, DistinctDigests, Elements, WasAcknowledged, Sent;
    SeenSnoc(k.visits, v, v.session);
    LogSnoc(k.visits, v, v.session);
    var seen := Seen(k.visits, v.session);
    if Elements(v.tools) in seen {
      assert v.trips == [];
      assert seen + {Elements(v.tools)} == seen;
      var last := k.visits[LastSent(k.visits, v.session).value].tools;
      InventoriesSnoc(k.visits, v);
      DigestsTellNames(ag, Inventories(t.visits), last, v.tools);
    } else {
      assert |seen + {Elements(v.tools)}| == |seen| + 1;
    }
  }

  lemma OtherSession(ag: Agent, k: Walk, t: Walk, v: Visit, session: string)
    requires Appends(ag, k, t, v) && session != v.session
    requires Recorded(ag, k, session) || Untouched(k, session)
    requires Sent(k.visits, session) == |Seen(k.visits, session)|
    ensures Recorded(ag, t, session) || Untouched(t, session)
    ensures Sent(t.visits, session) == |Seen(t.visits, session)|
  {
    hide Digest, Seen, LastSent, Elements, WasAcknowledged, Sent;
    SeenSnoc(k.visits, v, session);
    LogSnoc(k.visits, v, session);
  }

  lemma WasReported(ag: Agent, v: Visit, tool: string)
    requires WasAcknowledged(ag, v) && tool in v.tools
    ensures NamesTool(Last(v.trips).body, "hooked_tools", tool)
  {
    hide AttestBody, Acknowledges, ListAt;
    AttestReports(ag, v.tools);
    ElementIn(v.tools, tool);
    ListNames(Last(v.trips).body, "hooked_tools", Elements(v.tools), tool);
  }

  lemma CoveredLast(ag: Agent, t: Walk, v: Visit)
    requires t.visits != [] && t.visits[|t.visits| - 1] == v && v.tool in v.tools
    requires Recorded(ag, t, v.session)
    requires Elements(t.visits[LastSent(t.visits, v.session).value].tools) == Elements(v.tools)
    ensures Covered(ag, t.visits, |t.visits| - 1)
  {
    hide Digest, Seen, LastSent, WasAcknowledged, NamesTool;
    assert t.visits[..|t.visits|] == t.visits;
    ElementIn(v.tools, v.tool);
    var j := LastSent(t.visits, v.session).value;
    ElementIn(t.visits[j].tools, v.tool);
    WasReported(ag, t.visits[j], v.tool);
  }

  lemma CallingSettled(ag: Agent, w: World, k: Walk, c: Invocation, now: int)
    requires DistinctDigests(ag, Inventories(Go(ag, w, k, Calling(c, now)).visits))
    requires Settled(ag, k) && Succeeds(ag, w, k, Calling(c, now))
    ensures Settled(ag, Go(ag, w, k, Calling(c, now)))
  {
    GoVisits(ag, w, k, c, now);
    hide Digest, Seen, LastSent, DistinctDigests, Elements, WasAcknowledged, Sent, Go, VisitOf, Register, Succeeds,
      Inventories;
    var t, v := Go(ag, w, k, Calling(c, now)), VisitOf(ag, w, k, c, now);
    VisitShape(ag, w, k, c, now);
    InventoriesSnoc(k.visits, v);
    CallAppends(ag, w, k, c, now);
    OwnSession(ag, k, t, v);
    forall session
      ensures Recorded(ag, t, session) || Untouched(t, session)
      ensures Sent(t.visits, session) == |Seen(t.visits, session)|
    {
      if session != v.session {
        OtherSession(ag, k, t, v, session);
      }
    }
    forall i | 0 <= i < |t.visits|
      ensures Covered(ag, t.visits, i)
    {
      if i < |k.visits| {
        CoveredSnoc(ag, k.visits, v, i);
      } else {
        CoveredLast(ag, t, v);
      }
    }
  }

  lemma DeclaringSettled(ag: Agent, w: World, k: Walk, names: seq<string>)
    requires Settled(ag, k)
    ensures Settled(ag, Go(ag, w, k, Declaring(names)))
  {
    hide Digest, Seen, LastSent, Elements, WasAcknowledged, Sent, Covered;
    var t := Go(ag, w, k, Declaring(names));
    DedupeElements(k.sh.hooked, names);
    forall session
      ensures Recorded(ag, t, session) || Untouched(t, session)
    {
      assert Recorded(ag, k, session) || Untouched(k, session);
    }
  }

  lemma {:induction false} VisitsGrow(ag: Agent, w: World, k: Walk, events: seq<Event>)
    ensures k.visits <= GoAll(ag, w, k, events).visits
    ensures Inventories(k.visits) <= Inventories(GoAll(ag, w, k, events).visits)
    decreases |events|
  {
    hide AdmitAlone, VisitOf;
    if events != [] {
      VisitsGrow(ag, w, Go(ag, w, k, events[0]), events[1..]);
      assert k.visits <= Go(ag, w, k, events[0]).visits;
    }
    var all := GoAll(ag, w, k, events).visits;
    assert forall i :: 0 <= i < |k.visits| ==> k.visits[i] == all[i];
  }

  lemma {:induction false} SettledAlways(ag: Agent, w: World, k: Walk, events: seq<Event>)
    requires DistinctDigests(ag, Inventories(GoAll(ag, w, k, events).visits))
    requires Settled(ag, k) && AllSucceed(ag, w, k, events)
    ensures Settled(ag, GoAll(ag, w, k, events))
    decreases |events|
  {
    hide Settled, Go, Succeeds, Inventories, Digest, AttestationBytes;
    if events != [] {
      VisitsGrow(ag, w, Go(ag, w, k, events[0]), events[1..]);
      match events[0] {
        case Declaring(names) => DeclaringSettled(ag, w, k, names);
        case Calling(c, now) => CallingSettled(ag, w, k, c, now);
      }
      SettledAlways(ag, w, Go(ag, w, k, events[0]), events[1..]);
    }
  }

  /** In every run of declarations and calls that do not overlap and whose attestations all succeed, a session
      sends exactly as many attestations as its calls saw distinct sets of tools; the tool of every call is in the
      last attestation its session had sent by then, which named exactly the tools governed at that call and was
      acknowledged; and the session's record is that last attestation. Of the hash nothing is asked but to tell
      the inventories of this run apart. */
  lemma AttestationsCountAndCover(ag: Agent, w: World, events: seq<Event>)
    requires AllSucceed(ag, w, OUTSET, events)
    requires DistinctDigests(ag, Inventories(GoAll(ag, w, OUTSET, events).visits))
    ensures var k := GoAll(ag, w, OUTSET, events);
            && (forall session :: Sent(k.visits, session) == |Seen(k.visits, session)|)
            && (forall i :: 0 <= i < |k.visits| ==> Covered(ag, k.visits, i))
            && (forall session :: session in k.sh.attested <==> LastSent(k.visits, session).Some?)
            && (forall session :: session in k.sh.attested ==>
                  k.sh.attested[session] == Digest(ag, k.visits[LastSent(k.visits, session).value].tools))
  {
    hide DistinctDigests, Covered, GoAll, AllSucceed, Digest, Seen, Sent, LastSent;
    OutsetSettled(ag);
    SettledAlways(ag, w, OUTSET, events);
    var k := GoAll(ag, w, OUTSET, events);
    forall session
      ensures session in k.sh.attested <==> LastSent(k.visits, session).Some?
      ensures session in k.sh.attested ==>
        k.sh.attested[session] == Digest(ag, k.visits[LastSent(k.visits, session).value].tools)
    {
      assert Recorded(ag, k, session) || Untouched(k, session);
    }
  }

  lemma OutsetSettled(ag: Agent)
    ensures Settled(ag, OUTSET)
  {
    assert forall session :: Untouched(OUTSET, session);
  }
}
