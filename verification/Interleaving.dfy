/** Any number of governed calls in flight at once. Each call is a sequence of atomic steps: the ones the
    governor performs under its lock or on an atomic counter, and the replies of the edge, which answers as
    it pleases. A run is any interleaving of such steps with declarations and the passing of time. */
module Interleaving {
  import opened Options
  import opened Protocol
  import opened Admission
  import opened Guarantees
  import opened Governance

  // ----------------------------------------------------------- the machine

  /** What a call saw when it considered attesting: the shared state, under the lock, and the time. */
  datatype Sight = Sight(sh: Shared, at: int)

  /** Where a call is. From Judged on it carries its verdict and, if allowed, where in the log of exchanges the
      allow it was given stands. */
  datatype Phase =
    | Arrived
    | Hooked                                                       // its tool name is in the inventory
    | Snapshotted(tools: seq<string>)                                 // the attestation is built
    | Attesting(tools: seq<string>, saw: Sight)                       // and being sent
    | Acknowledged(tools: seq<string>, saw: Sight)                    // and acknowledged, not yet recorded
    | Ready(tools: seq<string>, saw: Sight, failed: bool)             // done with attesting, which may have failed
    | Asking(tools: seq<string>, saw: Sight, failed: bool)            // counted as admitted, deciding
    | Judged(verdict: Verdict, allowAt: nat)                           // no outcome counted yet
    | HalfCounted(verdict: Verdict, allowAt: nat)                      // unreachable counted, held still to count
    | Counted(verdict: Verdict, allowAt: nat)
    | Returned(verdict: Verdict, allowAt: nat, input: Option<Fields>)
    | Ran(verdict: Verdict, allowAt: nat)                              // the inner tool was called

  datatype Call = Call(inv: Invocation, phase: Phase)

  /** A call's attestation that the edge acknowledged, the client having received the acknowledgement. The session
      is the call's: what is sent names none. */
  datatype Ack = Ack(id: nat, session: string, tools: seq<string>, trip: Trip)

  /** An attestation started, and whether its session was never attested then. */
  datatype Try = Try(session: string, time: int, first: bool)

  /** A round trip of some call's decision. */
  datatype Exchange = Exchange(id: nat, trip: Trip)

  /** A call of an inner tool. */
  datatype Execution = Execution(id: nat, tool: string, input: Fields, allowAt: nat)

  datatype State = State(
    sh: Shared,
    calls: map<nat, Call>,
    clock: int,
    acks: seq<Ack>,
    tries: seq<Try>,
    exchanges: seq<Exchange>,
    runs: seq<Execution>)

  const START := State(Shared([], map[], map[], NO_STATS), map[], 0, [], [], [], [])

  datatype Action =
    | Tick(nanos: nat)
    | Declaring(names: seq<string>)
    | Arrive(id: nat, inv: Invocation)
    | Registering(id: nat)
    | Snapshot(id: nat)
    | Considering(id: nat)
    | AttestReturns(id: nat, w: World)
    | Recording(id: nat)
    | CountAdmitted(id: nat)
    | Deciding(id: nat, w: World)
    | CountOutcome(id: nat)
    | CountHeld(id: nat)
    | Return(id: nat)
    | RunInner(id: nat)

  function Move(s: State, id: nat, phase: Phase): State
    requires id in s.calls
  {
    s.(calls := s.calls[id := s.calls[id].(phase := phase)])
  }

  function Tag(id: nat, trips: seq<Trip>): (r: seq<Exchange>)
    ensures |r| == |trips| && forall i :: 0 <= i < |r| ==> r[i] == Exchange(id, trips[i])
  {
    seq(|trips|, i requires 0 <= i < |trips| => Exchange(id, trips[i]))
  }

  /** The decision a call's request gets in a world. */
  function DecisionOf(ag: Agent, inv: Invocation, w: World): Decided {
    DecideRun(ag.setup, w, 0, RequestFor(ag, inv), ag.setup.cfg.holdTimeout)
  }

  ghost function StepConsidering(ag: Agent, s: State, id: nat): State
    requires id in s.calls && s.calls[id].phase.Snapshotted?
  {
    var session, tools := s.calls[id].inv.session, s.calls[id].phase.tools;
    var (due, sh) := Consider(s.sh, session, Digest(ag, tools), s.clock);
    if due then
      Move(s, id, Attesting(tools, Sight(s.sh, s.clock))).(
        sh := sh, tries := s.tries + [Try(session, s.clock, session !in s.sh.attested)])
    else Move(s, id, Ready(tools, Sight(s.sh, s.clock), false))
  }

  ghost function StepAttestReturns(ag: Agent, s: State, id: nat, w: World): State
    requires id in s.calls && s.calls[id].phase.Attesting?
  {
    var session, tools, saw := s.calls[id].inv.session, s.calls[id].phase.tools, s.calls[id].phase.saw;
    var run := AttestRun(ag, w, 0, tools);
    if run.result.Ok? && run.trips != [] then
      Move(s, id, Acknowledged(tools, saw)).(acks := s.acks + [Ack(id, session, tools, Last(run.trips))])
    else Move(s, id, Ready(tools, saw, true))
  }

  ghost function StepRecording(ag: Agent, s: State, id: nat): State
    requires id in s.calls && s.calls[id].phase.Acknowledged?
  {
    var session, tools := s.calls[id].inv.session, s.calls[id].phase.tools;
    Move(s, id, Ready(tools, s.calls[id].phase.saw, false)).(sh := Acknowledge(s.sh, session, Digest(ag, tools)))
  }

  function StepDeciding(ag: Agent, s: State, id: nat, w: World): State
    requires id in s.calls
  {
    var run := DecisionOf(ag, s.calls[id].inv, w);
    var allowAt: nat := if run.trips == [] then 0 else |s.exchanges| + |run.trips| - 1;
    Move(s, id, Judged(run.verdict, allowAt)).(exchanges := s.exchanges + Tag(id, run.trips))
  }

  function WithStats(s: State, st: Stats): State {
    s.(sh := s.sh.(stats := st))
  }

  /** The first counter a verdict moves; a failed hold still has the held counter to move. */
  function StepCountOutcome(s: State, id: nat): State
    requires id in s.calls && s.calls[id].phase.Judged?
  {
    var v, at, st := s.calls[id].phase.verdict, s.calls[id].phase.allowAt, s.sh.stats;
    if v.allowed then WithStats(Move(s, id, Counted(v, at)), st.(allowed := st.allowed + 1))
    else if v.AdapterFailed() then
      WithStats(Move(s, id, if v.held then HalfCounted(v, at) else Counted(v, at)), st.(unreachable := st.unreachable + 1))
    else if v.held then WithStats(Move(s, id, Counted(v, at)), st.(held := st.held + 1))
    else WithStats(Move(s, id, Counted(v, at)), st.(denied := st.denied + 1))
  }

  function StepReturn(s: State, id: nat): State
    requires id in s.calls && s.calls[id].phase.Counted?
  {
    var v, at := s.calls[id].phase.verdict, s.calls[id].phase.allowAt;
    var input := if v.allowed then Some(Merge(s.calls[id].inv.input, v.updatedInput)) else None;
    WithStats(Move(s, id, Returned(v, at, input)), CountRouted(s.sh.stats, v))
  }

  function StepRun(s: State, id: nat): State
    requires id in s.calls && s.calls[id].phase.Returned? && s.calls[id].phase.input.Some?
  {
    var phase := s.calls[id].phase;
    Move(s, id, Ran(phase.verdict, phase.allowAt)).(
      runs := s.runs + [Execution(id, s.calls[id].inv.tool, phase.input.value, phase.allowAt)])
  }

  /** One step, if the call it belongs to is where the step needs it. */
  ghost function Step(ag: Agent, s: State, a: Action): Option<State> {
    match a
    case Tick(nanos) => Some(s.(clock := s.clock + nanos))
    case Declaring(names) => Some(s.(sh := s.sh.(hooked := Dedupe(s.sh.hooked, names))))
    case Arrive(id, inv) => if id in s.calls then None else Some(s.(calls := s.calls[id := Call(inv, Arrived)]))
    case Registering(id) =>
      if id !in s.calls || !s.calls[id].phase.Arrived? then None
      else Some(Move(s, id, Hooked).(sh := s.sh.(hooked := Register(s.sh.hooked, s.calls[id].inv.tool))))
    case Snapshot(id) =>
      if id !in s.calls || !s.calls[id].phase.Hooked? then None
      else Some(Move(s, id, Snapshotted(s.sh.hooked)))
    case Considering(id) =>
      if id !in s.calls || !s.calls[id].phase.Snapshotted? then None else Some(StepConsidering(ag, s, id))
    case AttestReturns(id, w) =>
      if id !in s.calls || !s.calls[id].phase.Attesting? then None else Some(StepAttestReturns(ag, s, id, w))
    case Recording(id) =>
      if id !in s.calls || !s.calls[id].phase.Acknowledged? then None else Some(StepRecording(ag, s, id))
    case CountAdmitted(id) =>
      if id !in s.calls || !s.calls[id].phase.Ready? then None
      else
        var phase := s.calls[id].phase;
        Some(WithStats(
          Move(s, id, Asking(phase.tools, phase.saw, phase.failed)), s.sh.stats.(admitted := s.sh.stats.admitted + 1)))
    case Deciding(id, w) =>
      if id !in s.calls || !s.calls[id].phase.Asking? then None else Some(StepDeciding(ag, s, id, w))
    case CountOutcome(id) =>
      if id !in s.calls || !s.calls[id].phase.Judged? then None else Some(StepCountOutcome(s, id))
    case CountHeld(id) =>
      if id !in s.calls || !s.calls[id].phase.HalfCounted? then None
      else
        var phase := s.calls[id].phase;
        Some(WithStats(
          Move(s, id, Counted(phase.verdict, phase.allowAt)), s.sh.stats.(held := s.sh.stats.held + 1)))
    case Return(id) =>
      if id !in s.calls || !s.calls[id].phase.Counted? then None else Some(StepReturn(s, id))
    case RunInner(id) =>
      if id !in s.calls || !s.calls[id].phase.Returned? || s.calls[id].phase.input.None? then None
      else Some(StepRun(s, id))
  }

  /** A run: the state a sequence of steps leads to, if each could be taken. */
  ghost function Exec(ag: Agent, s: State, actions: seq<Action>): Option<State>
    decreases |actions|
  {
    if actions == [] then Some(s)
    else
      var s' :- Step(ag, s, actions[0]);
      Exec(ag, s', actions[1..])
  }

  // --------------------------------------------------- composing runs

  lemma {:induction false} ExecConcat(ag: Agent, s: State, a: seq<Action>, b: seq<Action>)
    requires Exec(ag, s, a).Some?
    ensures Exec(ag, s, a + b) == Exec(ag, Exec(ag, s, a).value, b)
    decreases |a|
  {
    hide Step;
    if a == [] {
      assert a + b == b;
    } else {
      assert (a + b)[1..] == a[1..] + b;
      ExecConcat(ag, Step(ag, s, a[0]).value, a[1..], b);
    }
  }

  lemma ExecSnoc(ag: Agent, s: State, actions: seq<Action>, a: Action)
    requires Exec(ag, s, actions).Some?
    ensures Exec(ag, s, actions + [a]) == Step(ag, Exec(ag, s, actions).value, a)
  {
    hide Step;
    ExecConcat(ag, s, actions, [a]);
    assert [a][1..] == [];
  }

  lemma ExecNone(ag: Agent, s: State)
    ensures Exec(ag, s, []) == Some(s)
  {
  }

  lemma ExecOne(ag: Agent, s: State, a: Action)
    ensures Exec(ag, s, [a]) == Step(ag, s, a)
  {
    hide Step;
    ExecNone(ag, s);
    ExecSnoc(ag, s, [], a);
    assert [] + [a] == [a];
  }

  /** A call arrives, registers its tool, and takes its snapshot. */
  function Entering(id: nat, inv: Invocation): seq<Action> {
    [Arrive(id, inv), Registering(id), Snapshot(id), Considering(id)]
  }

  /** Where a call stands once it has its snapshot. */
  function Entered(s: State, id: nat, inv: Invocation): State {
    var hooked := Register(s.sh.hooked, inv.tool);
    s.(sh := s.sh.(hooked := hooked), calls := s.calls[id := Call(inv, Snapshotted(hooked))])
  }

  lemma Enters(ag: Agent, s: State, id: nat, inv: Invocation)
    requires id !in s.calls
    ensures Exec(ag, s, Entering(id, inv)) == Some(StepConsidering(ag, Entered(s, id, inv), id))
  {
    hide StepConsidering, Register;
    var t0 := Step(ag, s, Arrive(id, inv)).value;
    var t1 := Step(ag, t0, Registering(id)).value;
    var t2 := Step(ag, t1, Snapshot(id)).value;
    assert t2 == Entered(s, id, inv) by {
      assert t2.calls == Entered(s, id, inv).calls;
    }
    var t3 := Step(ag, t2, Considering(id)).value;
    hide Step;
    assert Exec(ag, t3, []) == Some(t3);
    assert [Considering(id)][1..] == [];
    assert Exec(ag, t2, [Considering(id)]) == Some(t3);
    assert [Snapshot(id), Considering(id)][1..] == [Considering(id)];
    assert Exec(ag, t1, [Snapshot(id), Considering(id)]) == Some(t3);
    assert Entering(id, inv)[1..] == [Registering(id), Snapshot(id), Considering(id)];
    assert Entering(id, inv)[1..][1..] == [Snapshot(id), Considering(id)];
    assert Exec(ag, t0, Entering(id, inv)[1..]) == Some(t3);
  }
}
