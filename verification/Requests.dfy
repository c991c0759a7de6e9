/** What is sent for a governed call, key by key: by a call on its own, and over every interleaving. */
module Requests {
  import opened Protocol
  import opened Config
  import opened Admission
  import opened Guarantees
  import opened Governance
  import opened Interleaving

  /** The body asks about this call: its tool, input, session, working directory and id, and the agent's surface
      and version, each under its own key, with a hold budget and nothing else. */
  predicate Asks(ag: Agent, c: Invocation, body: Fields) {
    && body.Keys <= REQUEST_KEYS
    && "tool_name" in body && body["tool_name"] == DString(c.tool)
    && "tool_input" in body && body["tool_input"] == DObject(c.input)
    && TextAt(body, "surface", if ag.id.surface == "" then "custom" else ag.id.surface)
    && TextAt(body, "framework_version", ag.id.version)
    && TextAt(body, "session_id", c.session) && TextAt(body, "cwd", c.cwd) && TextAt(body, "tool_use_id", c.toolUseID)
    && "hold_timeout_seconds" in body && body["hold_timeout_seconds"].DNumber?
  }

  predicate AsksTrip(ag: Agent, c: Invocation, trip: Trip) {
    trip.path == "/v1/admit" && Asks(ag, c, trip.body)
  }

  lemma WireAsks(ag: Agent, c: Invocation, seconds: int)
    ensures var body := Wire(WithHold(RequestFor(ag, c), seconds)); body.Ok? ==> Asks(ag, c, body.value)
  {
    hide Wire, TextAt;
    var r := WithHold(RequestFor(ag, c), seconds);
    if Wire(r).Ok? {
      WireTexts(r);
      WireVerbatim(r);
    }
  }

  lemma PhaseAsks(ag: Agent, c: Invocation, w: World, at: nat, seconds: int, timeout: int)
    ensures var run := AdmitRun(ag.setup, w, at, WithHold(RequestFor(ag, c), seconds), timeout);
            forall i :: 0 <= i < |run.trips| ==> AsksTrip(ag, c, run.trips[i])
  {
    hide RequestRun, Wire, WithHold, RequestFor, Asks;
    var r := WithHold(RequestFor(ag, c), seconds);
    WireAsks(ag, c, seconds);
    if Wire(r).Ok? {
      RequestTrips(ag.setup, w, at, ADMIT, Wire(r).value, timeout);
    }
  }

  /** Every round trip of a call's decision asks about that call. */
  lemma DecisionAsks(ag: Agent, c: Invocation, w: World, at: nat, budget: int)
    ensures var run := DecideRun(ag.setup, w, at, RequestFor(ag, c), budget);
            forall i :: 0 <= i < |run.trips| ==> AsksTrip(ag, c, run.trips[i])
  {
    hide AdmitRun, RequestFor, AsksTrip;
    PhaseAsks(ag, c, w, at, 0, ag.setup.cfg.timeout);
    var n := WholeSeconds(budget);
    PhaseAsks(ag, c, w, FirstPhase(ag.setup, w, at, RequestFor(ag, c)).next, n, n * SECOND + HOLD_MARGIN);
  }

  /** The trip reports the posture whose tools these are. */
  ghost predicate ReportsTrip(ag: Agent, hooked: seq<string>, trip: Trip) {
    trip.path == "/v1/attest" && Reports(ag, hooked, trip.body)
  }

  /** Every round trip of an attestation reports the posture, and the time it is granted is 5 s. */
  lemma AttestationReports(ag: Agent, w: World, at: nat, hooked: seq<string>)
    ensures var run := AttestRun(ag, w, at, hooked);
            && (forall i :: 0 <= i < |run.trips| ==> ReportsTrip(ag, hooked, run.trips[i]))
            && (run.trips != [] ==> run.deadline == 5_000_000_000)
  {
    hide RequestRun, Reports, AttestBody;
    AttestReports(ag, hooked);
    RequestTrips(ag.setup, w, at, ATTEST, AttestBody(ag, hooked), ATTEST_TIMEOUT);
    RequestGranted(ag.setup, w, at, ATTEST, AttestBody(ag, hooked), ATTEST_TIMEOUT);
    NothingUnstarted(ag.setup, w, at, ATTEST, AttestBody(ag, hooked), ATTEST_TIMEOUT);
  }

  lemma NothingUnstarted(s: Setup, w: World, at: nat, path: string, body: Fields, timeout: int)
    ensures RequestRun(s, w, at, path, body, timeout).trips != [] ==> Starts(s, w, body)
  {
    hide Attempts;
  }

  /** All that a call on its own sends: attestations of the inventory with its tool in it, then requests about
      the call. */
  lemma AdmitSends(ag: Agent, w: World, at: nat, sh: Shared, c: Invocation, now: int)
    ensures var e := AdmitAlone(ag, w, at, sh, c, now);
            forall i :: 0 <= i < |e.trips| ==>
              ReportsTrip(ag, Register(sh.hooked, c.tool), e.trips[i]) || AsksTrip(ag, c, e.trips[i])
  {
    hide DecideRun, AttestRun, RequestFor, ReportsTrip, AsksTrip, Register, Digest, CountVerdict, CountRouted, Merge;
    var shared := sh.(hooked := Register(sh.hooked, c.tool));
    AttestationReports(ag, w, at, shared.hooked);
    DecisionAsks(ag, c, w, EnsureAlone(ag, w, at, shared, c.session, now).next, ag.setup.cfg.holdTimeout);
  }

  // ----------------------------------------------------- over every run

  /** Every exchange logged asks about its own call. */
  ghost predicate Asked(ag: Agent, s: State) {
    forall i :: 0 <= i < |s.exchanges| ==>
      s.exchanges[i].id in s.calls && AsksTrip(ag, s.calls[s.exchanges[i].id].inv, s.exchanges[i].trip)
  }

  /** Calls keep what they were made with, and only a decision adds exchanges: its own round trips. */
  lemma StepExchanges(ag: Agent, s: State, a: Action)
    requires Step(ag, s, a).Some?
    ensures var t := Step(ag, s, a).value;
            && (forall id :: id in s.calls ==> id in t.calls && t.calls[id].inv == s.calls[id].inv)
            && (if a.Deciding? then
                  a.id in s.calls && t.exchanges == s.exchanges + Tag(a.id, DecisionOf(ag, s.calls[a.id].inv, a.w).trips)
                else t.exchanges == s.exchanges)
  {
    hide Digest, DecisionOf, AttestRun, Merge, Dedupe, Register, CountRouted, Throttled, AttestedHash, Tag;
  }

  lemma AskedKept(ag: Agent, s: State, a: Action)
    requires Asked(ag, s) && Step(ag, s, a).Some?
    ensures Asked(ag, Step(ag, s, a).value)
  {
    hide Step, AsksTrip, DecideRun;
    StepExchanges(ag, s, a);
    if a.Deciding? {
      DecisionAsks(ag, s.calls[a.id].inv, a.w, 0, ag.setup.cfg.holdTimeout);
    }
  }

  lemma {:induction false} AskedAlways(ag: Agent, s: State, actions: seq<Action>)
    requires Asked(ag, s) && Exec(ag, s, actions).Some?
    ensures Asked(ag, Exec(ag, s, actions).value)
    decreases |actions|
  {
    hide Step, Asked;
    if actions != [] {
      AskedKept(ag, s, actions[0]);
      AskedAlways(ag, Step(ag, s, actions[0]).value, actions[1..]);
    }
  }

  /** In every run, every request the edge got for a decision asks about the call it was sent for. */
  lemma ExchangesAsk(ag: Agent, actions: seq<Action>, i: nat)
    requires Exec(ag, START, actions).Some? && i < |Exec(ag, START, actions).value.exchanges|
    ensures var s := Exec(ag, START, actions).value;
            s.exchanges[i].id in s.calls && AsksTrip(ag, s.calls[s.exchanges[i].id].inv, s.exchanges[i].trip)
  {
    hide Exec, AsksTrip;
    AskedAlways(ag, START, actions);
  }
}
