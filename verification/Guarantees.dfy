/** What the two-phase decision guarantees, for every configuration, every request and every world: it
    never fabricates an allow, every verdict falls in one class, retries are bounded, a hold is asked for
    again only as the protocol says, and the deadlines add up. */
module Guarantees {
  import opened Options
  import opened Protocol
  import opened Config
  import opened Admission
  import L = Loopback

  // ------------------------------------------------- no fabricated allow

  /** The peer is an edge speaking this protocol: the version header is there and its first value, if it has
      one, is the version spoken. */
  predicate SpeaksProtocol(version: Option<seq<string>>) {
    version.Some? && (version.value == [] || version.value[0] == "1")
  }

  /** The body is a JSON object that says `word` and whose optional members have the types they must. */
  predicate Words(body: Body, word: string) {
    && body.Document? && body.d.DObject?
    && var members := body.d.members;
       && "decision" in members && members["decision"] == DString(word)
       && ("risk_score" in members ==> members["risk_score"].DNumber?)
       && ("updated_input" in members ==> members["updated_input"].DNull? || members["updated_input"].DObject?)
  }

  /** The reply is a 200 of this protocol whose body says `word`. */
  predicate Says(reply: Reply, word: string) {
    reply.Answer? && reply.status == 200 && SpeaksProtocol(reply.version) && Words(reply.body, word)
  }

  /** The updated input an answer carries. */
  function UpdatedInput(reply: Reply): Option<Fields>
    requires reply.Answer? && reply.body.Document? && reply.body.d.DObject?
  {
    var members := reply.body.d.members;
    if "updated_input" in members && members["updated_input"].DObject? then Some(members["updated_input"].members)
    else None
  }

  function Word(kind: DecisionKind): string {
    match kind
    case Allow => "allow"
    case Deny => "deny"
    case Held => "held"
  }

  lemma ParsesExactly(text: string, kind: DecisionKind)
    ensures ParseKind(text) == Some(kind) <==> text == Word(kind)
  {
  }

  /** A body that was interpreted and parsed to a decision is an answer that says so, and conversely. */
  lemma DecisionIffSaid(reply: Reply, kind: DecisionKind)
    requires reply.Answer?
    ensures var b := Interpret(reply.status, reply.version, reply.body);
            b.Ok? && ParseDecision(b.value).Ok? && ParseDecision(b.value).value.kind == kind
            <==> Says(reply, Word(kind))
    ensures Says(reply, Word(kind)) ==>
      ParseDecision(Interpret(reply.status, reply.version, reply.body).value).value.updatedInput == UpdatedInput(reply)
  {
    if reply.body.Document? && reply.body.d.DObject? {
      ParsesExactly(TextField(reply.body.d.members, "decision"), kind);
    }
  }

  function Last(trips: seq<Trip>): Trip
    requires trips != []
  {
    trips[|trips| - 1]
  }

  /** The last exchange got an answer other than a 401. */
  predicate Answered(trips: seq<Trip>) {
    trips != [] && Last(trips).reply.Answer? && Last(trips).reply.status != 401
  }

  /** A request's result is what its last answer is interpreted as; without one it is an error. */
  lemma AttemptsResult(s: Setup, w: World, at: nat, path: string, body: Fields, attempt: nat, deadline: int)
    requires 1 <= attempt <= 2
    ensures var run := Attempts(s, w, at, path, body, attempt, deadline);
            if Answered(run.trips) then
              var reply := Last(run.trips).reply; run.result == Interpret(reply.status, reply.version, reply.body)
            else run.result.Err?
    decreases 2 - attempt
  {
    hide ReadToken, Interpret;
    if attempt == 1 {
      AttemptsResult(s, w, at + 1, path, body, 2, deadline);
    }
  }

  /** One admit yields a decision exactly when its last reply says one, with the input that reply carries. */
  lemma AdmitIffSaid(s: Setup, w: World, at: nat, req: Request, timeout: int, kind: DecisionKind)
    ensures var run := AdmitRun(s, w, at, req, timeout);
            && (run.result.Ok? && run.result.value.kind == kind
                <==> run.trips != [] && Says(Last(run.trips).reply, Word(kind)))
            && (run.result.Ok? && run.result.value.kind == kind ==>
                  run.result.value.updatedInput == UpdatedInput(Last(run.trips).reply))
  {
    hide Attempts, Interpret, ParseDecision;
    if Wire(req).Ok? {
      var body := Wire(req).value;
      AttemptsResult(s, w, at, ADMIT, body, 1, timeout);
      var run := RequestRun(s, w, at, ADMIT, body, timeout);
      if Answered(run.trips) {
        DecisionIffSaid(Last(run.trips).reply, kind);
      }
    }
  }

  /** No fabricated allow, and no lost one: a call is allowed exactly when the last exchange was a 200 answer
      of this protocol whose object says "allow"; then the input to run is the one that answer carries. */
  lemma AllowedIffAnswered(s: Setup, w: World, at: nat, req: Request, budget: int)
    ensures var run := DecideRun(s, w, at, req, budget);
            run.verdict.allowed <==> run.trips != [] && Says(Last(run.trips).reply, "allow")
    ensures var run := DecideRun(s, w, at, req, budget);
            run.verdict.allowed ==>
              && run.verdict.err.None? && !run.verdict.held && run.verdict.decision.Some?
              && run.verdict.decision.value.kind == Allow
              && run.verdict.updatedInput == UpdatedInput(Last(run.trips).reply)
  {
    hide AdmitRun, Says, UpdatedInput;
    assert Word(Allow) == "allow";
    AdmitIffSaid(s, w, at, WithHold(req, 0), s.cfg.timeout, Allow);
    AdmitIffSaid(s, w, at, WithHold(req, 0), s.cfg.timeout, Held);
    var first := FirstPhase(s, w, at, req);
    var seconds := WholeSeconds(budget);
    if first.result.Ok? && first.result.value.kind == Held && seconds > 0 {
      AdmitIffSaid(s, w, first.next, WithHold(req, seconds), seconds * SECOND + HOLD_MARGIN, Allow);
      SaysOneThing(Last(first.trips).reply);
    }
  }

  lemma SaysOneThing(reply: Reply)
    ensures !(Says(reply, Word(Held)) && Says(reply, Word(Allow)))
  {
  }

  /** In this world a response's header that is present has a value, as in every response parsed off a wire. */
  ghost predicate HeadersHaveValues(w: World) {
    forall n: nat :: var reply := w.attempts(n).reply; reply.Answer? && reply.version.Some? ==> reply.version.value != []
  }

  ghost predicate Met(w: World, reply: Reply) {
    exists n: nat :: reply == w.attempts(n).reply
  }

  lemma AdmitRepliesMet(s: Setup, w: World, at: nat, req: Request, timeout: int)
    ensures var run := AdmitRun(s, w, at, req, timeout);
            forall i :: 0 <= i < |run.trips| ==> Met(w, run.trips[i].reply)
  {
    hide RequestRun;
    if Wire(req).Ok? {
      RequestTrips(s, w, at, ADMIT, Wire(req).value, timeout);
    }
  }

  /** Every reply a decision got is one the world gave. */
  lemma RepliesMet(s: Setup, w: World, at: nat, req: Request, budget: int)
    ensures var run := DecideRun(s, w, at, req, budget);
            forall i :: 0 <= i < |run.trips| ==> Met(w, run.trips[i].reply)
  {
    hide AdmitRun, Met;
    AdmitRepliesMet(s, w, at, WithHold(req, 0), s.cfg.timeout);
    var seconds := WholeSeconds(budget);
    AdmitRepliesMet(s, w, FirstPhase(s, w, at, req).next, WithHold(req, seconds), seconds * SECOND + HOLD_MARGIN);
  }

  /** With such headers a call is allowed exactly when the last exchange was a 200 answer whose version header
      is "1" and whose object says "allow". */
  lemma AllowedIffVersionOne(s: Setup, w: World, at: nat, req: Request, budget: int)
    requires HeadersHaveValues(w)
    ensures var run := DecideRun(s, w, at, req, budget);
            run.verdict.allowed <==>
              && run.trips != [] && Last(run.trips).reply.Answer? && Last(run.trips).reply.status == 200
              && Last(run.trips).reply.version.Some? && Last(run.trips).reply.version.value != []
              && Last(run.trips).reply.version.value[0] == "1" && Words(Last(run.trips).reply.body, "allow")
  {
    hide DecideRun, Words;
    AllowedIffAnswered(s, w, at, req, budget);
    RepliesMet(s, w, at, req, budget);
    var run := DecideRun(s, w, at, req, budget);
    if run.trips != [] {
      assert Met(w, run.trips[|run.trips| - 1].reply);
    }
  }

  /** A 204, which acknowledges an attestation, decides nothing: the call is denied. */
  lemma NoContentDenies(s: Setup, w: World, at: nat, req: Request, budget: int)
    ensures var run := DecideRun(s, w, at, req, budget);
            run.trips != [] && Last(run.trips).reply.Answer? && Last(run.trips).reply.status != 200 ==>
              !run.verdict.allowed
  {
    hide DecideRun;
    AllowedIffAnswered(s, w, at, req, budget);
  }

  /** A client built on a refused address denies every call and sends nothing; one that sends anything dials a
      socket path or a loopback endpoint. */
  lemma RefusedSendsNothing(v6: string -> Option<L.Ip>, raw: Config, w: World, at: nat, req: Request, budget: int)
    requires L.KnowsLoopback(v6)
    ensures var run := DecideRun(NewSetup(v6, raw), w, at, req, budget);
            && (L.Dials(v6, raw.addr).Err? ==> run.trips == [] && !run.verdict.allowed && run.verdict.err.Some?)
            && (run.trips != [] ==>
                  L.Dials(v6, raw.addr).Ok?
                  && (L.Dials(v6, raw.addr).value.Socket? || L.IsLoopbackHost(L.Dials(v6, raw.addr).value.host)))
  {
    hide L.SplitAddr, L.ParseLoopbackAddr, Attempts, WithHold;
    if L.Dials(v6, raw.addr).Ok? {
      L.DialsFixpoint(v6, raw.addr);
    }
  }

  // ---------------------------------------------------- verdict partition

  datatype Class = Allowed | PolicyDenied | HeldOpen | AdapterFailed

  /** Which of the four classes a verdict's fields put it in; None if they contradict each other. */
  function Classify(v: Verdict): Option<Class> {
    if v.allowed then (if v.err.None? && !v.held then Some(Allowed) else None)
    else if v.AdapterFailed() then Some(AdapterFailed)
    else if v.held then Some(HeldOpen)
    else Some(PolicyDenied)
  }

  /** The call was held in phase 1 and the budget is worth at least a second: phase 2 is due. */
  predicate AsksAgain(s: Setup, w: World, at: nat, req: Request, budget: int) {
    var first := FirstPhase(s, w, at, req);
    first.result.Ok? && first.result.value.kind == Held && WholeSeconds(budget) > 0
  }

  /** Every verdict falls in exactly one class, and the class says what happened: a policy deny answered
      deny last, an open hold held last and no error since, an adapter failure got no decision from its last
      phase. A hold with an error arises only from a held first phase followed by a failed second one. */
  lemma VerdictPartition(s: Setup, w: World, at: nat, req: Request, budget: int)
    ensures var run := DecideRun(s, w, at, req, budget);
            && Classify(run.verdict).Some?
            && (run.verdict.PolicyDenied() <==> Classify(run.verdict) == Some(PolicyDenied))
            && (Classify(run.verdict) == Some(PolicyDenied) <==>
                  run.trips != [] && Says(Last(run.trips).reply, "deny"))
            && (Classify(run.verdict) == Some(HeldOpen) <==>
                  run.trips != [] && Says(Last(run.trips).reply, "held") && run.verdict.err.None?)
    ensures var run := DecideRun(s, w, at, req, budget);
            var first := FirstPhase(s, w, at, req);
            && (run.verdict.held && run.verdict.err.Some? <==>
                  AsksAgain(s, w, at, req, budget) && SecondPhase(s, w, at, req, WholeSeconds(budget)).result.Err?)
            && (run.verdict.err.Some? && !run.verdict.held <==> first.result.Err?)
  {
    hide AdmitRun, Says;
    assert Word(Deny) == "deny" && Word(Held) == "held";
    AdmitIffSaid(s, w, at, WithHold(req, 0), s.cfg.timeout, Deny);
    AdmitIffSaid(s, w, at, WithHold(req, 0), s.cfg.timeout, Held);
    var first := FirstPhase(s, w, at, req);
    var seconds := WholeSeconds(budget);
    if first.result.Ok? && first.result.value.kind == Held && seconds > 0 {
      AdmitIffSaid(s, w, first.next, WithHold(req, seconds), seconds * SECOND + HOLD_MARGIN, Deny);
      AdmitIffSaid(s, w, first.next, WithHold(req, seconds), seconds * SECOND + HOLD_MARGIN, Held);
      AdmitIffSaid(s, w, first.next, WithHold(req, seconds), seconds * SECOND + HOLD_MARGIN, Allow);
      HeldIsNotDeny(Last(first.trips).reply);
    }
  }

  lemma HeldIsNotDeny(reply: Reply)
    ensures !(Says(reply, Word(Held)) && Says(reply, Word(Deny)))
  {
  }

  // ------------------------------------------- bounded retry, fresh tokens

  /** Round trip number `i` of a request started at `at`: it carries the request's body and the token read
      from the file for this very attempt, and its reply is this attempt's. */
  predicate FreshTrip(s: Setup, w: World, at: nat, i: nat, path: string, body: Fields, trip: Trip) {
    && trip.path == path && trip.body == body
    && Ok(trip.token) == ReadToken(s.cfg.tokenFile, w.attempts(at + i).file)
    && trip.reply == w.attempts(at + i).reply
  }

  predicate Is401(reply: Reply) {
    reply.Answer? && reply.status == 401
  }

  /** A request makes at most two round trips, a second only after a 401 on the first, and presents a
      freshly read token each time. */
  lemma RequestTrips(s: Setup, w: World, at: nat, path: string, body: Fields, timeout: int)
    ensures var run := RequestRun(s, w, at, path, body, timeout);
            && |run.trips| <= 2 && run.next <= at + 2
            && (|run.trips| == 2 ==> Is401(run.trips[0].reply) && w.attempts(at).after.Live?)
            && forall i :: 0 <= i < |run.trips| ==> FreshTrip(s, w, at, i, path, body, run.trips[i])
  {
    hide ReadToken, Interpret, TransportKind;
    if w.encode(body).Payload? {
      var later := Attempts(s, w, at + 1, path, body, 2, timeout);
      assert |later.trips| <= 1;
      assert forall i :: 0 <= i < |later.trips| ==> FreshTrip(s, w, at, i + 1, path, body, later.trips[i]);
    }
  }

  /** The client can send this body at all. */
  predicate Sends(s: Setup, w: World, body: Fields) {
    && s.accepted && s.cfg.tokenFile != ""
    && w.encode(body).Payload? && w.encode(body).size <= MAX_REQUEST_BYTES
  }

  /** An attempt that goes out with a token and is rejected. */
  predicate Rejected(s: Setup, a: Attempt) {
    a.before.Live? && ReadToken(s.cfg.tokenFile, a.file).Ok? && Is401(a.reply)
  }

  /** Exactly when a request reports that its token was rejected: it goes out and is rejected, and then its
      context has ended, or the second attempt is rejected too. With one round trip, the file read only once, it is
      the ended context. */
  lemma UnauthorizedIff(s: Setup, w: World, at: nat, path: string, body: Fields, timeout: int)
    ensures var run := RequestRun(s, w, at, path, body, timeout);
            && (run.result == Err(Unauthorized) <==>
                  && Sends(s, w, body) && Rejected(s, w.attempts(at))
                  && (w.attempts(at).after.Live? ==> Rejected(s, w.attempts(at + 1))))
            && (run.result == Err(Unauthorized) && |run.trips| < 2 <==>
                  Sends(s, w, body) && Rejected(s, w.attempts(at)) && !w.attempts(at).after.Live?)
            && (run.result == Err(Unauthorized) <==>
                  && run.trips != [] && Is401(Last(run.trips).reply)
                  && (|run.trips| == 2 || !w.attempts(at).after.Live?))
  {
    hide TrimSpace;
    RequestTrips(s, w, at, path, body, timeout);
  }

  /** An edge that rejects a token just as the caller gives up. */
  function RejectedAndCanceled(): World {
    World((n: nat) => Attempt(Live, Contents("t"), Answer(401, Some(["1"]), Empty), CallerCanceled),
          (body: Fields) => Payload(0))
  }

  /** There the token is reported as rejected after one round trip, the file having been read once. */
  lemma CanceledIsUnauthorized(s: Setup, at: nat, path: string, body: Fields, timeout: int)
    requires s.accepted && s.cfg.tokenFile != ""
    ensures var run := RequestRun(s, RejectedAndCanceled(), at, path, body, timeout);
            run.result == Err(Unauthorized) && |run.trips| == 1
  {
    assert TrimSpace("t") == "t";
    UnauthorizedIff(s, RejectedAndCanceled(), at, path, body, timeout);
  }

  /** Each round trip presents the token that white space frames in the file as read for this very attempt. */
  lemma TokensPresented(s: Setup, w: World, at: nat, path: string, body: Fields, timeout: int)
    ensures var run := RequestRun(s, w, at, path, body, timeout);
            forall i :: 0 <= i < |run.trips| ==>
              && run.trips[i].token != "" && w.attempts(at + i).file.Contents?
              && Frames(w.attempts(at + i).file.raw, run.trips[i].token)
  {
    hide RequestRun, TrimSpace, Frames;
    RequestTrips(s, w, at, path, body, timeout);
    var run := RequestRun(s, w, at, path, body, timeout);
    forall i | 0 <= i < |run.trips|
      ensures run.trips[i].token != "" && w.attempts(at + i).file.Contents?
      ensures Frames(w.attempts(at + i).file.raw, run.trips[i].token)
    {
      assert FreshTrip(s, w, at, i, path, body, run.trips[i]);
      TrimExactly(w.attempts(at + i).file.raw);
    }
  }

  // ------------------------------------------------- what errors mean

  /** The request's clock is started: the address was accepted and the body encodes within the edge's 64 KiB. */
  predicate Starts(s: Setup, w: World, body: Fields) {
    s.accepted && w.encode(body).Payload? && w.encode(body).size <= 65536
  }

  /** The file holds a token. */
  predicate HoldsToken(file: TokenFile) {
    file.Contents? && !AllSpace(file.raw)
  }

  predicate GoesOut(s: Setup, a: Attempt) {
    a.before.Live? && s.cfg.tokenFile != "" && HoldsToken(a.file)
  }

  /** The attempt is rejected with time left for another. */
  predicate Retried(s: Setup, a: Attempt) {
    GoesOut(s, a) && Is401(a.reply) && a.after.Live?
  }

  /** The attempt whose outcome is the request's. */
  function Decisive(s: Setup, w: World, at: nat): Attempt {
    if Retried(s, w.attempts(at)) then w.attempts(at + 1) else w.attempts(at)
  }

  /** The answer names no protocol version but the one spoken here. */
  predicate NamesNoOther(version: Option<seq<string>>) {
    version.None? || SpeaksProtocol(version)
  }

  predicate SaysNotReady(reply: Reply) {
    reply.Answer? && reply.status == 503 && NamesNoOther(reply.version)
  }

  /** The kind of error an attempt amounts to, kind by kind; None for an acknowledgement. */
  predicate Amounts(s: Setup, a: Attempt, kind: Kind) {
    var out, r := GoesOut(s, a), a.reply;
    match kind
    case ConfigError => a.before.Live? && s.cfg.tokenFile == ""
    case Timeout => a.before.DeadlinePassed?
      || (out && r.Broken? && (a.after.DeadlinePassed? || (a.after.Live? && r.deadline)))
    case Canceled => a.before.CallerCanceled? || (out && r.Broken? && a.after.CallerCanceled?)
    case Unreachable => (a.before.Live? && s.cfg.tokenFile != "" && !HoldsToken(a.file))
      || (out && r.Broken? && a.after.Live? && !r.deadline)
    case Unauthorized => out && Is401(r)
    case NotReady => out && SaysNotReady(r)
    case PayloadTooLarge => false
    case ProtocolError => out && !r.Broken? && !Acknowledges(r) && !Is401(r) && !SaysNotReady(r)
  }

  lemma TokenRead(s: Setup, file: TokenFile)
    ensures ReadToken(s.cfg.tokenFile, file).Ok? <==> s.cfg.tokenFile != "" && HoldsToken(file)
    ensures s.cfg.tokenFile == "" ==> ReadToken(s.cfg.tokenFile, file) == Err(ConfigError)
    ensures s.cfg.tokenFile != "" && !HoldsToken(file) ==> ReadToken(s.cfg.tokenFile, file) == Err(Unreachable)
  {
    if file.Contents? {
      TrimExactly(file.raw);
    }
  }

  lemma InterpretKinds(reply: Reply)
    requires reply.Answer? && reply.status != 401
    ensures var r := Interpret(reply.status, reply.version, reply.body);
            && (r.Ok? <==> Acknowledges(reply))
            && (r == Err(NotReady) <==> SaysNotReady(reply))
            && (r.Ok? || r == Err(NotReady) || r == Err(ProtocolError))
  {
  }

  lemma TransportKinds(reply: Reply, after: Context)
    requires !reply.Answer?
    ensures var k := TransportKind(reply, after);
            && (k == ProtocolError <==> reply.TooLong?)
            && (k == Timeout <==> reply.Broken? && (after.DeadlinePassed? || (after.Live? && reply.deadline)))
            && (k == Canceled <==> reply.Broken? && after.CallerCanceled?)
            && (k == Unreachable <==> reply.Broken? && after.Live? && !reply.deadline)
            && (k == ProtocolError || k == Timeout || k == Canceled || k == Unreachable)
  {
  }

  /** A single attempt fails with a kind exactly when it amounts to it. */
  lemma LastAttemptKind(s: Setup, w: World, at: nat, path: string, body: Fields, deadline: int, kind: Kind)
    ensures Attempts(s, w, at, path, body, 2, deadline).result == Err(kind) <==> Amounts(s, w.attempts(at), kind)
  {
    hide ReadToken, Interpret, TransportKind, HoldsToken, SaysNotReady, Acknowledges;
    var a := w.attempts(at);
    TokenRead(s, a.file);
    if a.reply.Answer? && a.reply.status != 401 {
      InterpretKinds(a.reply);
      AnswersOnly(a.reply);
    } else if !a.reply.Answer? {
      TransportKinds(a.reply, a.after);
      AnswersOnly(a.reply);
    } else {
      AnswersOnly(a.reply);
    }
  }

  lemma AnswersOnly(reply: Reply)
    ensures Acknowledges(reply) ==> reply.Answer? && reply.status != 401
    ensures SaysNotReady(reply) ==> reply.Answer? && reply.status == 503
  {
  }

  /** The decisive attempt is the one the loop ends with. */
  lemma DecisiveDecides(s: Setup, w: World, at: nat, path: string, body: Fields, deadline: int)
    ensures Attempts(s, w, at, path, body, 1, deadline).result
         == Attempts(s, w, if Retried(s, w.attempts(at)) then at + 1 else at, path, body, 2, deadline).result
  {
    hide ReadToken, Interpret, TransportKind, HoldsToken;
    TokenRead(s, w.attempts(at).file);
  }

  /** Which error a request reports, for every kind and every world. */
  lemma KindIff(s: Setup, w: World, at: nat, path: string, body: Fields, timeout: int, kind: Kind)
    ensures RequestRun(s, w, at, path, body, timeout).result == Err(kind) <==>
      if !s.accepted then kind == ConfigError
      else if w.encode(body).Unserializable? then kind == ProtocolError
      else if w.encode(body).size > 65536 then kind == PayloadTooLarge
      else Amounts(s, Decisive(s, w, at), kind)
  {
    hide Attempts, Amounts;
    DecisiveDecides(s, w, at, path, body, timeout);
    LastAttemptKind(s, w, at, path, body, timeout, kind);
    LastAttemptKind(s, w, at + 1, path, body, timeout, kind);
  }

  /** When a request succeeds and with what body. */
  lemma SucceedsIff(s: Setup, w: World, at: nat, path: string, body: Fields, timeout: int)
    ensures var r, a := RequestRun(s, w, at, path, body, timeout).result, Decisive(s, w, at);
            && (r.Ok? <==> Starts(s, w, body) && GoesOut(s, a) && Acknowledges(a.reply))
            && (r.Ok? ==> r.value == if a.reply.status == 204 then Empty else a.reply.body)
  {
    hide Attempts, HoldsToken;
    DecisiveDecides(s, w, at, path, body, timeout);
    LastAttemptSucceeds(s, w, at, path, body, timeout);
    LastAttemptSucceeds(s, w, at + 1, path, body, timeout);
  }

  lemma LastAttemptSucceeds(s: Setup, w: World, at: nat, path: string, body: Fields, deadline: int)
    ensures var r, a := Attempts(s, w, at, path, body, 2, deadline).result, w.attempts(at);
            && (r.Ok? <==> GoesOut(s, a) && Acknowledges(a.reply))
            && (r.Ok? ==> r.value == if a.reply.status == 204 then Empty else a.reply.body)
  {
    hide ReadToken, TransportKind, HoldsToken;
    TokenRead(s, w.attempts(at).file);
  }

  // --------------------------------------------- what a verdict is made of

  /** The last reply carries the decision. */
  predicate CarriedBy(trips: seq<Trip>, d: Decision) {
    trips != [] && Last(trips).reply.Answer? && Carries(Last(trips).reply.body, d)
  }

  /** An admit's decision is the one its last reply carries. */
  lemma AdmitCarries(s: Setup, w: World, at: nat, req: Request, timeout: int)
    ensures var run := AdmitRun(s, w, at, req, timeout);
            run.result.Ok? ==> CarriedBy(run.trips, run.result.value)
  {
    hide Attempts, ParseDecision, Carries;
    if Wire(req).Ok? {
      var body := Wire(req).value;
      AttemptsResult(s, w, at, ADMIT, body, 1, timeout);
      var run := RequestRun(s, w, at, ADMIT, body, timeout);
      if Answered(run.trips) {
        ParsedCarries(Last(run.trips).reply.body);
        NoDecisionInNothing();
      }
    }
  }

  lemma NoDecisionInNothing()
    ensures ParseDecision(Empty).Err?
  {
  }

  /** A verdict with a decision carries, field by field, the one the edge gave: its last answer, or the held one when
      the second phase failed. An allow passes on its input and route; nothing else does. */
  lemma VerdictCarries(s: Setup, w: World, at: nat, req: Request, budget: int)
    ensures var run := DecideRun(s, w, at, req, budget);
            var v, first := run.verdict, FirstPhase(s, w, at, req);
            && (v.decision.None? <==> v.err.Some? && !v.held)
            && (v.err.None? ==> CarriedBy(run.trips, v.decision.value))
            && (v.err.Some? && v.held ==> CarriedBy(first.trips, v.decision.value) && v.decision.value.kind == Held)
            && (v.allowed ==>
                  v.decision.Some? && v.routedTo == v.decision.value.routedTo
                  && v.updatedInput == v.decision.value.updatedInput)
            && (!v.allowed ==> v.routedTo == "" && v.updatedInput == None)
            && (v.err.Some? && !v.held ==> first.result == Err(v.err.value))
            && (v.err.Some? && v.held ==> SecondPhase(s, w, at, req, WholeSeconds(budget)).result == Err(v.err.value))
  {
    hide AdmitRun, Carries;
    AdmitCarries(s, w, at, WithHold(req, 0), s.cfg.timeout);
    var seconds := WholeSeconds(budget);
    AdmitCarries(s, w, FirstPhase(s, w, at, req).next, WithHold(req, seconds), seconds * SECOND + HOLD_MARGIN);
  }

  // ------------------------------------------------------- granted time

  /** The time a request is granted: its timeout if its clock is started. */
  lemma RequestGranted(s: Setup, w: World, at: nat, path: string, body: Fields, timeout: int)
    ensures RequestRun(s, w, at, path, body, timeout).deadline == if Starts(s, w, body) then timeout else 0
  {
    hide ReadToken, Interpret, TransportKind;
  }

  predicate AdmitStarts(s: Setup, w: World, req: Request) {
    Wire(req).Ok? && Starts(s, w, Wire(req).value)
  }

  lemma AdmitGranted(s: Setup, w: World, at: nat, req: Request, timeout: int)
    ensures AdmitRun(s, w, at, req, timeout).deadline == if AdmitStarts(s, w, req) then timeout else 0
  {
    hide RequestRun, Wire, Starts, ParseDecision;
    if Wire(req).Ok? {
      RequestGranted(s, w, at, ADMIT, Wire(req).value, timeout);
    }
  }

  /** The time a decision is granted: its timeout, and if it asks again the whole seconds of its budget and 5 s more,
      each if that request's clock is started. */
  lemma DecideGranted(s: Setup, w: World, at: nat, req: Request, budget: int)
    ensures var n := WholeSeconds(budget);
            DecideRun(s, w, at, req, budget).deadline
            == (if AdmitStarts(s, w, WithHold(req, 0)) then s.cfg.timeout else 0)
               + (if AsksAgain(s, w, at, req, budget) && AdmitStarts(s, w, WithHold(req, n)) then
                    n * SECOND + 5 * SECOND
                  else 0)
  {
    hide AdmitRun, AdmitStarts, VerdictFor, HoldFailedVerdict, UnreachableVerdict;
    AdmitGranted(s, w, at, WithHold(req, 0), s.cfg.timeout);
    var n := WholeSeconds(budget);
    AdmitGranted(s, w, FirstPhase(s, w, at, req).next, WithHold(req, n), n * SECOND + HOLD_MARGIN);
  }

  /** A decision makes at most four round trips, all to the admit path. */
  lemma DecideTrips(s: Setup, w: World, at: nat, req: Request, budget: int)
    ensures var run := DecideRun(s, w, at, req, budget);
            |run.trips| <= 4 && forall i :: 0 <= i < |run.trips| ==> run.trips[i].path == "/v1/admit"
  {
    hide RequestRun;
    forall n: nat, r: Request, timeout: int
      ensures var run := AdmitRun(s, w, n, r, timeout);
              |run.trips| <= 2 && forall i :: 0 <= i < |run.trips| ==> run.trips[i].path == ADMIT
    {
      if Wire(r).Ok? {
        RequestTrips(s, w, n, ADMIT, Wire(r).value, timeout);
      }
    }
  }

  // ------------------------------------------------------- hold protocol

  const HOLD_FIELD := "hold_timeout_seconds"

  lemma AdmitBodies(s: Setup, w: World, at: nat, req: Request, timeout: int)
    ensures var run := AdmitRun(s, w, at, req, timeout);
            forall i :: 0 <= i < |run.trips| ==> Wire(req) == Ok(run.trips[i].body)
  {
    hide RequestRun;
    if Wire(req).Ok? {
      RequestTrips(s, w, at, ADMIT, Wire(req).value, timeout);
    }
  }

  /** Every phase-1 request asks not to wait; every later one is the same request but for a budget of the
      whole seconds allowed; and later ones are made only when phase 2 is due. */
  lemma HoldProtocol(s: Setup, w: World, at: nat, req: Request, budget: int)
    ensures var run := DecideRun(s, w, at, req, budget);
            var n := |FirstPhase(s, w, at, req).trips|;
            && n <= |run.trips|
            && (forall i :: 0 <= i < n ==>
                  HOLD_FIELD in run.trips[i].body && run.trips[i].body[HOLD_FIELD] == DNumber(0.0))
            && (n < |run.trips| ==> AsksAgain(s, w, at, req, budget))
            && (forall i :: n <= i < |run.trips| ==>
                  n > 0 && run.trips[i].body == run.trips[0].body[HOLD_FIELD := DNumber(WholeSeconds(budget) as real)])
  {
    hide AdmitRun;
    var first := FirstPhase(s, w, at, req);
    AdmitBodies(s, w, at, WithHold(req, 0), s.cfg.timeout);
    if AsksAgain(s, w, at, req, budget) {
      var seconds := WholeSeconds(budget);
      AdmitBodies(s, w, first.next, WithHold(req, seconds), seconds * SECOND + HOLD_MARGIN);
      WireHold(req, 0, seconds);
      AdmitIffSaid(s, w, at, WithHold(req, 0), s.cfg.timeout, Held);
    }
  }

  /** When phase 2 is due its request goes out unless it fails before sending: the body cannot be encoded, the
      context has ended, or the token cannot be read. */
  lemma SecondRequestIff(s: Setup, w: World, at: nat, req: Request, budget: int)
    requires AsksAgain(s, w, at, req, budget)
    ensures var run := DecideRun(s, w, at, req, budget);
            var first := FirstPhase(s, w, at, req);
            var body := Wire(WithHold(req, WholeSeconds(budget)));
            && body.Ok?
            && (|run.trips| > |first.trips| <==>
                  && w.encode(body.value).Payload? && w.encode(body.value).size <= MAX_REQUEST_BYTES
                  && w.attempts(first.next).before.Live?
                  && ReadToken(s.cfg.tokenFile, w.attempts(first.next).file).Ok?)
  {
    hide ReadToken, Interpret;
    WireHold(req, 0, WholeSeconds(budget));
  }

  /** The hold budget the edge is asked for never exceeds the caller's or the configured one, nor 570 s. */
  lemma BudgetBound(raw: Config, budget: int)
    ensures var c := Normalized(raw);
            var seconds := WholeSeconds(HoldBudget(c, budget));
            && 0 <= seconds <= 570
            && seconds * SECOND <= c.holdTimeout
            && (budget >= 0 ==> seconds * SECOND <= budget)
            && (budget < SECOND ==> seconds == 0)
  {
  }

  /** A decision under a budget of the caller's: the edge is asked again exactly when the call was held and both
      budgets are worth a second, and then for as many whole seconds as both hold. */
  lemma CappedHold(s: Setup, w: World, at: nat, req: Request, budget: int)
    requires s.cfg.holdTimeout >= 0
    ensures var run := DecideRun(s, w, at, req, HoldBudget(s.cfg, budget));
            var first := FirstPhase(s, w, at, req);
            && (AsksAgain(s, w, at, req, HoldBudget(s.cfg, budget)) <==>
                  first.result.Ok? && first.result.value.kind == Held && budget >= SECOND && s.cfg.holdTimeout >= SECOND)
            && (forall i :: |first.trips| <= i < |run.trips| ==> AsksFor(run.trips[i].body, budget, s.cfg.holdTimeout))
  {
    hide FirstPhase, DecideRun, WholeSeconds, HoldBudget;
    HoldSecondsExactly(s.cfg, budget);
    HoldProtocol(s, w, at, req, HoldBudget(s.cfg, budget));
    if budget >= SECOND && s.cfg.holdTimeout >= SECOND {
      assert 1 * SECOND <= budget && 1 * SECOND <= s.cfg.holdTimeout;
    }
    var run := DecideRun(s, w, at, req, HoldBudget(s.cfg, budget));
    var n := WholeSeconds(HoldBudget(s.cfg, budget));
    forall i | |FirstPhase(s, w, at, req).trips| <= i < |run.trips|
      ensures AsksFor(run.trips[i].body, budget, s.cfg.holdTimeout)
    {
      assert run.trips[i].body[HOLD_FIELD] == DNumber(n as real) && n >= 1;
      assert !((n + 1) * SECOND <= budget && (n + 1) * SECOND <= s.cfg.holdTimeout);
    }
  }

  /** The body asks for the most whole seconds that both budgets hold. */
  ghost predicate AsksFor(body: Fields, budget: int, configured: int) {
    exists n: int :: n >= 1 && HOLD_FIELD in body && body[HOLD_FIELD] == DNumber(n as real)
      && n * SECOND <= budget && n * SECOND <= configured
      && (budget < (n + 1) * SECOND || configured < (n + 1) * SECOND)
  }

  // ----------------------------------------------------------- deadlines

  /** The longest a decision can wait on the network: the first phase, then the hold and its margin. */
  function WorstWait(c: Config, budget: int): int {
    c.timeout + (if WholeSeconds(budget) > 0 then WholeSeconds(budget) * SECOND + HOLD_MARGIN else 0)
  }

  lemma WithinWorstWait(s: Setup, w: World, at: nat, req: Request, budget: int)
    requires s.cfg.timeout >= 0
    ensures DecideRun(s, w, at, req, budget).deadline <= WorstWait(s.cfg, budget)
  {
    hide Interpret, ReadToken, ParseDecision, Wire;
    forall n: nat, r: Request, timeout: int | timeout >= 0
      ensures AdmitRun(s, w, n, r, timeout).deadline <= timeout
    {
      assert forall body: Fields, m: nat ::
        Attempts(s, w, m, ADMIT, body, 2, timeout).deadline == timeout;
    }
  }

  /** An edge that answers every request at once, with held. */
  function HeldWorld(): World {
    var held := Answer(200, Some(["1"]), Document(DObject(map["decision" := DString("held")])));
    World((n: nat) => Attempt(Live, Contents("t"), held, Live), (body: Fields) => Payload(0))
  }

  lemma HeldWorldHolds(s: Setup, at: nat, req: Request, timeout: int)
    requires s.accepted && s.cfg.tokenFile != "" && Wire(req).Ok?
    ensures var run := AdmitRun(s, HeldWorld(), at, req, timeout);
            run.result.Ok? && run.result.value.kind == Held && run.deadline == timeout
  {
    hide Wire;
    var members: Fields := map["decision" := DString("held")];
    assert TextField(members, "decision") == "held" && ParseKind("held") == Some(Held);
    assert TrimSpace("t") == "t";
  }

  lemma HeldWorldWaits(s: Setup, req: Request, budget: int)
    requires s.accepted && s.cfg.tokenFile != "" && Wire(WithHold(req, 0)).Ok?
    ensures DecideRun(s, HeldWorld(), 0, req, budget).deadline == WorstWait(s.cfg, budget)
  {
    hide AdmitRun;
    HeldWorldHolds(s, 0, WithHold(req, 0), s.cfg.timeout);
    var seconds := WholeSeconds(budget);
    if seconds > 0 {
      WireHold(req, 0, seconds);
      HeldWorldHolds(s, FirstPhase(s, HeldWorld(), 0, req).next, WithHold(req, seconds), seconds * SECOND + HOLD_MARGIN);
    }
  }

  /** An edge that answers every request at once, with allow. */
  function AllowingWorld(): World {
    var allow := Answer(200, Some(["1"]), Document(DObject(map["decision" := DString("allow")])));
    World((n: nat) => Attempt(Live, Contents("t"), allow, Live), (body: Fields) => Payload(0))
  }

  lemma AllowingWorldAllows(s: Setup, req: Request, budget: int)
    requires s.accepted && s.cfg.tokenFile != "" && Wire(WithHold(req, 0)).Ok?
    ensures DecideRun(s, AllowingWorld(), 0, req, budget).verdict.allowed
  {
    hide Wire, TrimSpace;
    assert TrimSpace("t") == "t" by { TokenText(); }
    var members: Fields := map["decision" := DString("allow")];
    assert TextField(members, "decision") == "allow" && ParseKind("allow") == Some(Allow);
  }

  lemma TokenText()
    ensures TrimSpace("t") == "t"
  {
  }

  /** The 600 s a framework gives a hook suffice for every world exactly when the configured timeouts add up to
      that: the ceilings alone allow 605 s. */
  lemma SixHundredSecondsIff(s: Setup, req: Request, budget: int)
    requires s.accepted && s.cfg.tokenFile != "" && Wire(WithHold(req, 0)).Ok? && s.cfg.timeout >= 0
    ensures (forall w: World :: DecideRun(s, w, 0, req, budget).deadline <= 600 * SECOND)
      <==> WorstWait(s.cfg, budget) <= 600 * SECOND
  {
    hide DecideRun, WorstWait;
    HeldWorldWaits(s, req, budget);
    forall w: World
      ensures DecideRun(s, w, 0, req, budget).deadline <= WorstWait(s.cfg, budget)
    {
      WithinWorstWait(s, w, 0, req, budget);
    }
  }

  /** After normalization no decision waits longer than 605 s, and none longer than 600 s with a decision
      deadline of at most 25 s; both bounds are reached. */
  lemma NormalizedWait(raw: Config, budget: int)
    ensures var c := Normalized(raw);
            && WorstWait(c, HoldBudget(c, budget)) <= 605 * SECOND
            && (c.timeout <= 25 * SECOND ==> WorstWait(c, HoldBudget(c, budget)) <= 600 * SECOND)
    ensures var c := Normalized(raw.(timeout := 30 * SECOND, holdTimeout := 570 * SECOND));
            WorstWait(c, c.holdTimeout) == 605 * SECOND
    ensures var c := Normalized(raw.(timeout := 25 * SECOND, holdTimeout := 570 * SECOND));
            WorstWait(c, c.holdTimeout) == 600 * SECOND
  {
    BudgetBound(raw, budget);
  }

  // -------------------------------------------------- what the edge judged

  /** The trip asks the edge about this tool and this input, verbatim. */
  predicate AsksAbout(trip: Trip, tool: string, input: Fields) {
    && trip.path == ADMIT
    && "tool_name" in trip.body && trip.body["tool_name"] == DString(tool)
    && "tool_input" in trip.body && trip.body["tool_input"] == DObject(input)
  }

  /** Every round trip of a decision asks about the request's own tool and input. */
  lemma DecideVerbatim(s: Setup, w: World, at: nat, req: Request, budget: int)
    requires req.toolInput.Some?
    ensures var run := DecideRun(s, w, at, req, budget);
            forall i :: 0 <= i < |run.trips| ==> AsksAbout(run.trips[i], req.toolName, req.toolInput.value)
  {
    hide AdmitRun;
    AdmitVerbatim(s, w, at, WithHold(req, 0), s.cfg.timeout);
    var seconds := WholeSeconds(budget);
    AdmitVerbatim(s, w, FirstPhase(s, w, at, req).next, WithHold(req, seconds), seconds * SECOND + HOLD_MARGIN);
  }

  lemma AdmitVerbatim(s: Setup, w: World, at: nat, req: Request, timeout: int)
    requires req.toolInput.Some?
    ensures var run := AdmitRun(s, w, at, req, timeout);
            forall i :: 0 <= i < |run.trips| ==> AsksAbout(run.trips[i], req.toolName, req.toolInput.value)
  {
    hide RequestRun, Wire;
    if Wire(req).Ok? {
      RequestTrips(s, w, at, ADMIT, Wire(req).value, timeout);
      WireVerbatim(req);
    }
  }

  /** A request that succeeds was answered: by a 204, or by a 200 of this protocol with a JSON body; and the
      answered trip carried the request's path and body. */
  lemma SuccessAnswered(s: Setup, w: World, at: nat, path: string, body: Fields, timeout: int)
    ensures var run := RequestRun(s, w, at, path, body, timeout);
            run.result.Ok? ==>
              && run.trips != [] && Acknowledges(Last(run.trips).reply)
              && Last(run.trips).path == path && Last(run.trips).body == body
  {
    hide Attempts;
    RequestTrips(s, w, at, path, body, timeout);
    if w.encode(body).Payload? {
      AttemptsResult(s, w, at, path, body, 1, timeout);
    }
  }

  predicate Acknowledges(reply: Reply) {
    && reply.Answer?
    && (reply.version.Some? ==> SpeaksProtocol(reply.version))
    && (reply.status == 204 || (reply.status == 200 && reply.version.Some? && (reply.body.Document? || reply.body.OutOfRange?)))
  }
}
