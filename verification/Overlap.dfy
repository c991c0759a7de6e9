/** Runs from the start in which the governor does less than one might expect: calls admitted while no attestation
    names their tool, a failing attestation sent again at once, and a record older than the last attestation
    the edge acknowledged. */
module Overlap {
  import opened Options
  import opened Protocol
  import opened Admission
  import opened Governance
  import opened Interleaving
  import opened Coverage
  import opened Records

  // ------------------------------------- a second call is not held up

  /** Two calls of one session; the second arrives while the first attestation is out. */
  function SecondCall(a: Invocation, b: Invocation): seq<Action> {
    Entering(1, a) + Entering(2, b) + [CountAdmitted(2)]
  }

  /** The second call is throttled by the first one's attempt and goes on to its admission, with nothing
      acknowledged yet: its tool is in no attestation. */
  lemma OverlapAdmitsUnattested(ag: Agent, a: Invocation, b: Invocation)
    requires a.session == b.session
    requires Digest(ag, Register([], a.tool)) != "" && Digest(ag, Register(Register([], a.tool), b.tool)) != ""
    ensures var run := Exec(ag, START, SecondCall(a, b));
            && run.Some? && 2 in run.value.calls && run.value.calls[2].inv == b && run.value.calls[2].phase.Asking?
            && SawThrottle(run.value.calls[2]) && !run.value.calls[2].phase.failed
            && run.value.acks == [] && run.value.sh.attested == map[]
  {
    hide Digest, Exec, Register;
    Enters(ag, START, 1, a);
    var s := StepConsidering(ag, Entered(START, 1, a), 1);
    Enters(ag, s, 2, b);
    var t := StepConsidering(ag, Entered(s, 2, b), 2);
    assert t.calls[2].phase.Ready?;
    ExecConcat(ag, START, Entering(1, a), Entering(2, b));
    ExecSnoc(ag, START, Entering(1, a) + Entering(2, b), CountAdmitted(2));
  }

  // ------------------------------------------------------ two kinds of edge

  /** An edge that is not there: no attestation can be sent. */
  const DOWN: World := World((n: nat) => Attempt(Live, Missing, Broken(false), Live), (body: Fields) => Payload(0))

  /** An edge that acknowledges whatever it is sent. */
  const WILLING: World :=
    World((n: nat) => Attempt(Live, Contents("t"), Answer(204, Some(["1"]), Empty), Live), (body: Fields) => Payload(0))

  lemma DownFails(ag: Agent, tools: seq<string>)
    ensures AttestRun(ag, DOWN, 0, tools).result.Err?
  {
    hide AttestBody;
  }

  /** A client with an address and a token file. */
  predicate Usable(ag: Agent) {
    ag.setup.accepted && ag.setup.cfg.tokenFile != ""
  }

  lemma WillingAcknowledges(ag: Agent, tools: seq<string>)
    requires Usable(ag)
    ensures Acknowledging(ag, WILLING, tools)
  {
    hide AttestBody;
  }

  // --------------------------------------------- what a failed or lost report does

  /** A lone call whose attestation fails is admitted all the same, with nothing attested and no throttle. */
  lemma FailureAdmitsUnattested(ag: Agent, a: Invocation)
    requires Digest(ag, Register([], a.tool)) != ""
    ensures var run := Exec(ag, START, Entering(1, a) + [AttestReturns(1, DOWN)] + [CountAdmitted(1)]);
            && run.Some? && 1 in run.value.calls && run.value.calls[1].inv == a
            && run.value.calls[1].phase.Asking? && run.value.calls[1].phase.failed
            && !SawThrottle(run.value.calls[1]) && run.value.acks == [] && run.value.sh.attested == map[]
  {
    hide Digest, AttestRun, Exec, Register;
    Enters(ag, START, 1, a);
    DownFails(ag, Register([], a.tool));
    ExecSnoc(ag, START, Entering(1, a), AttestReturns(1, DOWN));
    ExecSnoc(ag, START, Entering(1, a) + [AttestReturns(1, DOWN)], CountAdmitted(1));
  }

  /** A throttled call may be covered all the same, by an acknowledgement its governor has yet to record: what
      a call can know and what the edge knows are not the same. */
  lemma ThrottledThoughAcknowledged(ag: Agent, a: Invocation)
    requires Usable(ag) && Digest(ag, Register([], a.tool)) != ""
    ensures var run := Exec(ag, START, Entering(1, a) + [AttestReturns(1, WILLING)] + Entering(2, a) + [CountAdmitted(2)]);
            && run.Some? && 2 in run.value.calls && run.value.calls[2].phase.Asking? && SawThrottle(run.value.calls[2])
            && |run.value.acks| == 1 && run.value.acks[0].session == a.session && a.tool in run.value.acks[0].tools
  {
    hide Digest, AttestRun, Exec, Register;
    var tools := Register([], a.tool);
    RegisterTwice(a.tool);
    Enters(ag, START, 1, a);
    WillingAcknowledges(ag, tools);
    var first := Entering(1, a) + [AttestReturns(1, WILLING)];
    ExecSnoc(ag, START, Entering(1, a), AttestReturns(1, WILLING));
    var s := Exec(ag, START, first).value;
    Enters(ag, s, 2, a);
    ExecConcat(ag, START, first, Entering(2, a));
    ExecSnoc(ag, START, first + Entering(2, a), CountAdmitted(2));
  }

  lemma RegisterTwice(name: string)
    ensures Register(Register([], name), name) == Register([], name) && name in Register([], name)
  {
  }

  // ---------------------------------------------- runs of an attested session

  /** A first call, attested and recorded. */
  function FirstRecorded(c: Invocation): seq<Action> {
    Entering(0, c) + [AttestReturns(0, WILLING)] + [Recording(0)]
  }

  lemma FirstIsRecorded(ag: Agent, c: Invocation)
    requires Usable(ag) && Digest(ag, Register([], c.tool)) != ""
    ensures var run := Exec(ag, START, FirstRecorded(c));
            && run.Some? && run.value.calls.Keys == {0} && run.value.calls[0].phase.Ready?
            && run.value.sh.attested == map[c.session := Digest(ag, Register([], c.tool))]
            && run.value.sh.hooked == Register([], c.tool)
            && run.value.clock == 0 && |run.value.tries| == 1 && run.value.tries[0] == Try(c.session, 0, true)
  {
    hide Digest, AttestRun, Exec, Register;
    Enters(ag, START, 0, c);
    WillingAcknowledges(ag, Register([], c.tool));
    ExecSnoc(ag, START, Entering(0, c), AttestReturns(0, WILLING));
    ExecSnoc(ag, START, Entering(0, c) + [AttestReturns(0, WILLING)], Recording(0));
  }

  /** One call is enough for the record to be behind for a moment: acknowledged, its attestation is not yet
      recorded. */
  lemma UnrecordedIsBehind(ag: Agent, c: Invocation, a: Invocation)
    requires Usable(ag) && c.session == a.session
    requires var t0 := Register([], c.tool);
             Digest(ag, t0) != "" && Digest(ag, Register(t0, a.tool)) != Digest(ag, t0)
    ensures var run := Exec(ag, START, FirstRecorded(c) + Entering(1, a) + [AttestReturns(1, WILLING)]);
            && run.Some? && run.value.calls.Keys == {0, 1} && !Underway(run.value.calls[0], c.session)
            && Holding(run.value.calls[1], c.session) && !IsCurrent(ag, run.value, c.session)
  {
    hide Digest, AttestRun, Exec, Register;
    FirstIsRecorded(ag, c);
    var s := Exec(ag, START, FirstRecorded(c)).value;
    Enters(ag, s, 1, a);
    ExecConcat(ag, START, FirstRecorded(c), Entering(1, a));
    WillingAcknowledges(ag, Register(Register([], c.tool), a.tool));
    ExecSnoc(ag, START, FirstRecorded(c) + Entering(1, a), AttestReturns(1, WILLING));
  }

  /** A failing attestation of an attested session is sent again at once: after a first call is attested, two calls
      that bring new tools both send, though the first of them failed at that very moment. */
  lemma FailedReattestationRepeats(ag: Agent, c: Invocation, a: Invocation, b: Invocation)
    requires Usable(ag) && c.session == a.session == b.session
    requires var t0 := Register([], c.tool);
             var t1 := Register(t0, a.tool);
             var t2 := Register(t1, b.tool);
             Digest(ag, t0) != "" && Digest(ag, t1) != Digest(ag, t0) && Digest(ag, t2) != Digest(ag, t0)
    ensures var run := Exec(ag, START, FirstRecorded(c) + Entering(1, a) + [AttestReturns(1, DOWN)] + Entering(2, b));
            && run.Some? && 1 in run.value.calls && 2 in run.value.calls
            && run.value.calls[1].phase.Ready? && run.value.calls[1].phase.failed && run.value.calls[2].phase.Attesting?
            && |run.value.tries| == 3
            && run.value.tries[1] == Try(c.session, 0, false) == run.value.tries[2]
  {
    hide Digest, AttestRun, Exec, Register;
    var t1 := Register(Register([], c.tool), a.tool);
    FirstIsRecorded(ag, c);
    var s := Exec(ag, START, FirstRecorded(c)).value;
    Enters(ag, s, 1, a);
    ExecConcat(ag, START, FirstRecorded(c), Entering(1, a));
    DownFails(ag, t1);
    var second := FirstRecorded(c) + Entering(1, a);
    ExecSnoc(ag, START, second, AttestReturns(1, DOWN));
    var u := Exec(ag, START, second + [AttestReturns(1, DOWN)]).value;
    Enters(ag, u, 2, b);
    ExecConcat(ag, START, second + [AttestReturns(1, DOWN)], Entering(2, b));
  }

  /** After a first call is attested, two calls that bring new tools are under way at once. */
  function BothUnderway(c: Invocation, a: Invocation, b: Invocation): seq<Action> {
    FirstRecorded(c) + Entering(1, a) + Entering(2, b)
  }

  lemma BothAreUnderway(ag: Agent, c: Invocation, a: Invocation, b: Invocation)
    requires Usable(ag) && c.session == a.session == b.session
    requires var t0 := Register([], c.tool);
             var t1 := Register(t0, a.tool);
             var t2 := Register(t1, b.tool);
             Digest(ag, t0) != "" && Digest(ag, t1) != Digest(ag, t0) && Digest(ag, t2) != Digest(ag, t0)
    ensures var run := Exec(ag, START, BothUnderway(c, a, b));
            var t1 := Register(Register([], c.tool), a.tool);
            && run.Some? && 1 in run.value.calls && 2 in run.value.calls
            && run.value.calls[1].inv == a && run.value.calls[1].phase.Attesting? && run.value.calls[1].phase.tools == t1
            && run.value.calls[2].inv == b && run.value.calls[2].phase.Attesting?
            && run.value.calls[2].phase.tools == Register(t1, b.tool)
  {
    hide Digest, AttestRun, Exec, Register, FirstRecorded;
    FirstIsRecorded(ag, c);
    var s := Exec(ag, START, FirstRecorded(c)).value;
    Enters(ag, s, 1, a);
    ExecConcat(ag, START, FirstRecorded(c), Entering(1, a));
    var u := Exec(ag, START, FirstRecorded(c) + Entering(1, a)).value;
    Enters(ag, u, 2, b);
    ExecConcat(ag, START, FirstRecorded(c) + Entering(1, a), Entering(2, b));
  }

  /** And the edge acknowledges the second one last. */
  function Crossing(c: Invocation, a: Invocation, b: Invocation): seq<Action> {
    BothUnderway(c, a, b) + [AttestReturns(1, WILLING)] + [AttestReturns(2, WILLING)]
  }

  lemma CrossingHeld(ag: Agent, c: Invocation, a: Invocation, b: Invocation)
    requires Usable(ag) && c.session == a.session == b.session
    requires var t0 := Register([], c.tool);
             var t1 := Register(t0, a.tool);
             var t2 := Register(t1, b.tool);
             Digest(ag, t0) != "" && Digest(ag, t1) != Digest(ag, t0) && Digest(ag, t2) != Digest(ag, t0)
    ensures var run := Exec(ag, START, Crossing(c, a, b));
            var t1 := Register(Register([], c.tool), a.tool);
            && run.Some? && 1 in run.value.calls && 2 in run.value.calls
            && Holding(run.value.calls[1], c.session) && run.value.calls[1].phase.tools == t1
            && Holding(run.value.calls[2], c.session) && run.value.calls[2].phase.tools == Register(t1, b.tool)
            && LastAck(run.value.acks, c.session) == Some(|run.value.acks| - 1)
            && run.value.acks[|run.value.acks| - 1].tools == Register(t1, b.tool)
  {
    hide Digest, AttestRun, Exec, Register, BothUnderway;
    var t1 := Register(Register([], c.tool), a.tool);
    BothAreUnderway(ag, c, a, b);
    WillingAcknowledges(ag, t1);
    WillingAcknowledges(ag, Register(t1, b.tool));
    ExecSnoc(ag, START, BothUnderway(c, a, b), AttestReturns(1, WILLING));
    ExecSnoc(ag, START, BothUnderway(c, a, b) + [AttestReturns(1, WILLING)], AttestReturns(2, WILLING));
  }

  /** From the start: a session's record ends up behind the last attestation the edge acknowledged for it. */
  lemma StaleRecord(ag: Agent, c: Invocation, a: Invocation, b: Invocation)
    requires Usable(ag) && c.session == a.session == b.session
    requires var t0 := Register([], c.tool);
             var t1 := Register(t0, a.tool);
             var t2 := Register(t1, b.tool);
             Digest(ag, t0) != "" && Digest(ag, t1) != Digest(ag, t0) && Digest(ag, t2) !in {Digest(ag, t0), Digest(ag, t1)}
    ensures LeavesBehind(ag, START, Crossing(c, a, b) + ([Recording(2)] + [Recording(1)]), 1, 2, c.session)
  {
    hide Digest, Exec, Register, LeavesBehind, LastAck, Crossing;
    CrossingHeld(ag, c, a, b);
    RecordedBehind(ag, Exec(ag, START, Crossing(c, a, b)).value, 1, 2, c.session);
    Continued(ag, START, Crossing(c, a, b), [Recording(2)] + [Recording(1)], 1, 2, c.session);
  }
}
