/** A call with no other beside it is one particular interleaving: taken back to back, the machine's steps for a
    call do exactly what the governor's Admit does, so what holds of every run holds of the governor's own. */
module Serial {
  import opened Options
  import opened Protocol
  import opened Config
  import opened Admission
  import opened Guarantees
  import opened Governance
  import opened Interleaving

  // -------------------------------------------------- a world's later part

  /** The world as it is met after `n` attempts. */
  function From(w: World, n: nat): World {
    World((i: nat) => w.attempts(n + i), w.encode)
  }

  function Later<T>(r: Run<T>, n: nat): Run<T> {
    r.(next := n + r.next)
  }

  lemma {:induction false} AttemptsFrom(s: Setup, w: World, n: nat, at: nat, path: string, body: Fields, attempt: nat, deadline: int)
    requires 1 <= attempt <= 2
    ensures Attempts(s, w, n + at, path, body, attempt, deadline)
         == Later(Attempts(s, From(w, n), at, path, body, attempt, deadline), n)
    decreases 2 - attempt
  {
    hide ReadToken, Interpret, TransportKind, ContextKind;
    assert From(w, n).attempts(at) == w.attempts(n + at);
    if attempt == 1 {
      AttemptsFrom(s, w, n, at + 1, path, body, 2, deadline);
    }
  }

  /** A request that does not reach the loop leaves the attempts as they were, so it is shifted too. */
  lemma RequestFrom(s: Setup, w: World, n: nat, at: nat, path: string, body: Fields, timeout: int)
    ensures RequestRun(s, w, n + at, path, body, timeout) == Later(RequestRun(s, From(w, n), at, path, body, timeout), n)
  {
    hide Attempts;
    AttemptsFrom(s, w, n, at, path, body, 1, timeout);
  }

  lemma AdmitFrom(s: Setup, w: World, n: nat, at: nat, req: Protocol.Request, timeout: int)
    ensures AdmitRun(s, w, n + at, req, timeout) == Later(AdmitRun(s, From(w, n), at, req, timeout), n)
  {
    hide RequestRun, ParseDecision, Wire;
    match Wire(req) {
      case Err(_) =>
      case Ok(body) => RequestFrom(s, w, n, at, ADMIT, body, timeout);
    }
  }

  lemma DecideFrom(s: Setup, w: World, n: nat, req: Protocol.Request, budget: int)
    ensures var near, far := DecideRun(s, w, n, req, budget), DecideRun(s, From(w, n), 0, req, budget);
            near.verdict == far.verdict && near.trips == far.trips && near.next == n + far.next
  {
    hide AdmitRun, VerdictFor, HoldFailedVerdict, UnreachableVerdict, WithHold, WholeSeconds;
    AdmitFrom(s, w, n, 0, WithHold(req, 0), s.cfg.timeout);
    var first := FirstPhase(s, From(w, n), 0, req);
    var seconds := WholeSeconds(budget);
    AdmitFrom(s, w, n, first.next, WithHold(req, seconds), seconds * SECOND + HOLD_MARGIN);
  }

  // ---------------------------------------------------------- back to back

  /** What a call that has its snapshot does until it is done with attesting. */
  ghost function AttestSteps(ag: Agent, s: State, id: nat, w: World): seq<Action>
    requires id in s.calls
  {
    var phase := s.calls[id].phase;
    if !phase.Attesting? then []
    else if AttestRun(ag, w, 0, phase.tools).result.Ok? then [AttestReturns(id, w)] + [Recording(id)]
    else [AttestReturns(id, w)]
  }

  /** The acknowledgement a lone call earns, if it attests and the edge answers well. */
  ghost function EarnedAck(ag: Agent, s: State, id: nat, inv: Invocation, w: World, at: nat): seq<Ack> {
    var sh := s.sh.(hooked := Register(s.sh.hooked, inv.tool));
    var run := AttestRun(ag, w, at, sh.hooked);
    if Consider(sh, inv.session, Digest(ag, sh.hooked), s.clock).0 && run.result.Ok? && run.trips != [] then
      [Ack(id, inv.session, sh.hooked, Last(run.trips))]
    else []
  }

  lemma AttestsAlone(ag: Agent, s: State, id: nat, inv: Invocation, w: World, at: nat)
    requires id !in s.calls
    ensures var t := StepConsidering(ag, Entered(s, id, inv), id);
            var run := Exec(ag, t, AttestSteps(ag, t, id, From(w, at)));
            var sh := s.sh.(hooked := Register(s.sh.hooked, inv.tool));
            && run.Some? && id in run.value.calls && run.value.calls[id].inv == inv && run.value.calls[id].phase.Ready?
            && run.value.sh == EnsureAlone(ag, w, at, sh, inv.session, s.clock).sh
            && run.value.exchanges == s.exchanges
            && run.value.acks == s.acks + EarnedAck(ag, s, id, inv, w, at)
  {
    hide Digest, RequestRun, Exec, Register, AttestBody;
    var t := StepConsidering(ag, Entered(s, id, inv), id);
    if t.calls[id].phase.Attesting? {
      var tools := t.calls[id].phase.tools;
      RequestFrom(ag.setup, w, at, 0, ATTEST, AttestBody(ag, tools), ATTEST_TIMEOUT);
      SuccessAnswered(ag.setup, From(w, at), 0, ATTEST, AttestBody(ag, tools), ATTEST_TIMEOUT);
      ExecOne(ag, t, AttestReturns(id, From(w, at)));
      ExecSnoc(ag, t, [AttestReturns(id, From(w, at))], Recording(id));
    } else {
      ExecNone(ag, t);
    }
  }

  /** How a call with its verdict is counted and returns. */
  function CountSteps(id: nat, v: Verdict): seq<Action> {
    if !v.allowed && v.AdapterFailed() && v.held then [CountOutcome(id)] + [CountHeld(id)] + [Return(id)]
    else [CountOutcome(id)] + [Return(id)]
  }

  lemma CountsAlone(ag: Agent, s: State, id: nat)
    requires id in s.calls && s.calls[id].phase.Judged?
    ensures var inv, v := s.calls[id].inv, s.calls[id].phase.verdict;
            var run := Exec(ag, s, CountSteps(id, v));
            && run.Some? && id in run.value.calls && run.value.calls[id].inv == inv
            && run.value.calls[id].phase.Returned? && run.value.calls[id].phase.verdict == v
            && run.value.calls[id].phase.input == (if v.allowed then Some(Merge(inv.input, v.updatedInput)) else None)
            && run.value.sh == s.sh.(stats := CountRouted(CountVerdict(s.sh.stats, v), v))
            && run.value.exchanges == s.exchanges && run.value.acks == s.acks
  {
    hide Exec, Merge, CountRouted, Digest, Register, Dedupe, StepConsidering, StepAttestReturns, StepRecording, StepDeciding,
      StepRun;
    var v := s.calls[id].phase.verdict;
    ExecOne(ag, s, CountOutcome(id));
    if !v.allowed && v.AdapterFailed() && v.held {
      ExecSnoc(ag, s, [CountOutcome(id)], CountHeld(id));
      ExecSnoc(ag, s, [CountOutcome(id)] + [CountHeld(id)], Return(id));
    } else {
      ExecSnoc(ag, s, [CountOutcome(id)], Return(id));
    }
  }

  /** What a call does once done with attesting, the verdict being known. */
  function DecideSteps(id: nat, w: World, v: Verdict): seq<Action> {
    [CountAdmitted(id)] + [Deciding(id, w)] + CountSteps(id, v)
  }

  lemma DecidesAlone(ag: Agent, s: State, id: nat, w: World)
    requires id in s.calls && s.calls[id].phase.Ready?
    ensures var inv, v := s.calls[id].inv, DecisionOf(ag, s.calls[id].inv, w).verdict;
            var run := Exec(ag, s, DecideSteps(id, w, v));
            && run.Some? && id in run.value.calls && run.value.calls[id].inv == inv
            && run.value.calls[id].phase.Returned? && run.value.calls[id].phase.verdict == v
            && run.value.calls[id].phase.input == (if v.allowed then Some(Merge(inv.input, v.updatedInput)) else None)
            && run.value.sh == s.sh.(stats :=
                 CountRouted(CountVerdict(s.sh.stats.(admitted := s.sh.stats.admitted + 1), v), v))
            && run.value.exchanges == s.exchanges + Tag(id, DecisionOf(ag, inv, w).trips) && run.value.acks == s.acks
  {
    hide Exec, DecisionOf, Merge, CountRouted, CountVerdict, CountSteps;
    var v := DecisionOf(ag, s.calls[id].inv, w).verdict;
    ExecOne(ag, s, CountAdmitted(id));
    ExecSnoc(ag, s, [CountAdmitted(id)], Deciding(id, w));
    var judged := Exec(ag, s, [CountAdmitted(id)] + [Deciding(id, w)]).value;
    CountsAlone(ag, judged, id);
    ExecConcat(ag, s, [CountAdmitted(id)] + [Deciding(id, w)], CountSteps(id, v));
  }

  /** The two stretches of a lone call: attesting, then deciding. */
  ghost function Ensured(ag: Agent, s: State, inv: Invocation, w: World, at: nat): Effect<()> {
    EnsureAlone(ag, w, at, s.sh.(hooked := Register(s.sh.hooked, inv.tool)), inv.session, s.clock)
  }

  ghost function DecidedAlone(ag: Agent, s: State, inv: Invocation, w: World, at: nat): Decided {
    DecideRun(ag.setup, w, Ensured(ag, s, inv, w, at).next, RequestFor(ag, inv), ag.setup.cfg.holdTimeout)
  }

  /** The steps of a call that starts in state `s`, taken with no other step between them. */
  ghost function BackToBack(ag: Agent, s: State, id: nat, inv: Invocation, w: World, at: nat): seq<Action>
    requires id !in s.calls
  {
    Entering(id, inv) + AttestSteps(ag, StepConsidering(ag, Entered(s, id, inv), id), id, From(w, at))
      + DecideSteps(id, From(w, Ensured(ag, s, inv, w, at).next), DecidedAlone(ag, s, inv, w, at).verdict)
  }

  /** The machine's steps for one call, back to back, are the governor's Admit: the same inventory, records and
      counters, the same answer to the caller, and the same round trips: the decision's are the exchanges logged,
      after the attestation's, whose answer is the acknowledgement logged. */
  lemma SerialCallIsAdmit(ag: Agent, s: State, id: nat, inv: Invocation, w: World, at: nat)
    requires id !in s.calls
    ensures var run, e := Exec(ag, s, BackToBack(ag, s, id, inv, w, at)), AdmitAlone(ag, w, at, s.sh, inv, s.clock);
            && run.Some? && run.value.sh == e.sh && id in run.value.calls
            && run.value.calls[id].phase.Returned? && run.value.calls[id].phase.input == e.result
            && e.trips == Ensured(ag, s, inv, w, at).trips + DecidedAlone(ag, s, inv, w, at).trips
            && run.value.exchanges == s.exchanges + Tag(id, DecidedAlone(ag, s, inv, w, at).trips)
            && run.value.acks == s.acks + EarnedAck(ag, s, id, inv, w, at)
  {
    hide Digest, AttestRun, Exec, Register, Step, EnsureAlone, DecideRun, AttestSteps, DecideSteps, Merge, CountRouted, CountVerdict,
      EarnedAck;
    var next := Ensured(ag, s, inv, w, at).next;
    var t := StepConsidering(ag, Entered(s, id, inv), id);
    Enters(ag, s, id, inv);
    AttestsAlone(ag, s, id, inv, w, at);
    var attests := AttestSteps(ag, t, id, From(w, at));
    var u := Exec(ag, t, attests).value;
    DecideFrom(ag.setup, w, next, RequestFor(ag, inv), ag.setup.cfg.holdTimeout);
    DecidesAlone(ag, u, id, From(w, next));
    var decides := DecideSteps(id, From(w, next), DecisionOf(ag, inv, From(w, next)).verdict);
    ExecConcat(ag, s, Entering(id, inv), attests);
    ExecConcat(ag, s, Entering(id, inv) + attests, decides);
  }

  /** A lone call is admitted exactly when its last round trip is an answer that allows this tool with this input;
      then what runs is the input that answer carries merged over the caller's. */
  lemma AdmittedOnAllow(ag: Agent, w: World, at: nat, sh: Shared, c: Invocation, now: int)
    ensures var e := AdmitAlone(ag, w, at, sh, c, now);
            && (e.result.Some? ==>
                  && e.trips != [] && AsksAbout(Last(e.trips), c.tool, c.input) && Says(Last(e.trips).reply, "allow")
                  && e.result.value == Merge(c.input, UpdatedInput(Last(e.trips).reply)))
            && (e.trips != [] && Last(e.trips).path == ADMIT && Says(Last(e.trips).reply, "allow") ==> e.result.Some?)
  {
    hide DecideRun, RequestRun, Digest, Register, Says, AsksAbout, UpdatedInput, Merge, AttestBody, CountVerdict, CountRouted;
    var shared := sh.(hooked := Register(sh.hooked, c.tool));
    var ensured := EnsureAlone(ag, w, at, shared, c.session, now);
    RequestTrips(ag.setup, w, at, ATTEST, AttestBody(ag, shared.hooked), ATTEST_TIMEOUT);
    AllowedIffAnswered(ag.setup, w, ensured.next, RequestFor(ag, c), ag.setup.cfg.holdTimeout);
    DecideVerbatim(ag.setup, w, ensured.next, RequestFor(ag, c), ag.setup.cfg.holdTimeout);
  }
}
