/** The edge as internal/edgetest/edge.go plays it: it mints tokens, checks the one presented, and answers
    from a script. It is the well-behaved environment of the client's liveness claims. */
module Edge {
  import opened Options
  import opened Protocol
  import opened Config
  import opened Admission
  import opened Guarantees

  // --------------------------------------------------------------- scripts

  /** One scripted response; a zero status is sent as 200. */
  datatype Scripted = Scripted(status: int, body: Body, version: Option<seq<string>>)

  datatype Response =
    | Always(s: Scripted)
    | HoldScript(outcome: Scripted, approvalID: string)

  function Speaking(status: int, body: Body): Scripted {
    Scripted(status, body, Some(["1"]))
  }

  function HeldBody(approvalID: string): Body {
    Document(DObject(map[
      "decision" := DString("held"),
      "reason" := DString("policy requires human approval"),
      "approval_id" := DString(if approvalID == "" then "apr-hold" else approvalID),
      "risk_score" := DNumber(0.5),
      "admission_id" := DString("adm-held"),
      "updated_input" := DNull]))
  }

  const ALLOW_BODY: Body := Document(DObject(map[
    "decision" := DString("allow"),
    "reason" := DString("allowed"),
    "approval_id" := DNull,
    "risk_score" := DNumber(0.1),
    "admission_id" := DString("adm-allow"),
    "updated_input" := DNull]))

  const HEALTHY_BODY: Body := Document(DObject(map["status" := DString("ok"), "profile_age_seconds" := DNumber(3.0)]))

  function ErrorBody(text: string): Body {
    Document(DObject(map["error" := DString(text)]))
  }

  const HEADER_VERSION := "X-Mitrity-Admission-Version"

  function WrongVersion(version: string): Scripted {
    Speaking(400, ErrorBody(HEADER_VERSION + " must be \"1\", got \"" + version + "\""))
  }

  const NOT_FOUND: Scripted := Speaking(404, ErrorBody("not found"))

  /** The hold budget of an admit request, -1 when it names none. */
  function HoldBudgetOf(body: Fields): int {
    if "hold_timeout_seconds" in body && body["hold_timeout_seconds"].DNumber? then
      var n := body["hold_timeout_seconds"].n;
      if n >= 0.0 then n.Floor else -(-n).Floor
    else -1
  }

  /** A hold script answers held to a request that does not wait and its outcome to one that does. */
  function Respond(r: Response, body: Fields): Scripted {
    match r
    case Always(s) => s
    case HoldScript(outcome, approvalID) =>
      if HoldBudgetOf(body) == 0 then Speaking(200, HeldBody(approvalID))
      else if outcome.status == 0 then Speaking(200, ALLOW_BODY)
      else outcome
  }

  function ReplyOf(s: Scripted): Reply {
    Answer(if s.status == 0 then 200 else s.status, s.version, s.body)
  }

  // -------------------------------------------------------------- the edge

  datatype State = State(
    token: string,
    file: string,  // the token file's contents
    script: seq<Response>,
    defaultAdmit: Response,
    defaultAttest: Scripted,
    defaultHealth: Scripted,
    rotateOnNextRequest: bool,
    rejectAllTokens: bool)

  function Rotate(e: State, minted: string): State {
    e.(token := minted, file := minted + "\n")
  }

  /** Any number of restarts, each minting a token. */
  function RotateAll(e: State, tokens: seq<string>): State
    decreases |tokens|
  {
    if tokens == [] then e else RotateAll(Rotate(e, tokens[0]), tokens[1..])
  }

  /** The rotation a request itself may trigger, just before its token is checked. */
  function Checked(e: State, minted: string): State {
    if e.rotateOnNextRequest then Rotate(e, minted).(rotateOnNextRequest := false) else e
  }

  /** The response to an accepted request. */
  function Accepted(e: State, path: string, body: Fields): (State, Scripted) {
    if path == ATTEST then (e, e.defaultAttest)
    else if path != ADMIT then (e, NOT_FOUND)
    else if e.script == [] then (e, Respond(e.defaultAdmit, body))
    else (e.(script := e.script[1..]), Respond(e.script[0], body))
  }

  const HEALTH := "/healthz"

  /** One request handled: the state after it and the reply. A health check is answered whoever asks. */
  function Handle(e: State, path: string, body: Fields, token: string, version: string, minted: string)
    : (State, Reply)
  {
    if path == HEALTH then (e, ReplyOf(e.defaultHealth)) else
    var e := Checked(e, minted);
    if e.rejectAllTokens || token != e.token then (e, ReplyOf(Speaking(401, Empty)))
    else if version != "1" then (e, ReplyOf(WrongVersion(version)))
    else
      var (e, s) := Accepted(e, path, body);
      (e, ReplyOf(s))
  }

  /** What the edge keeps of a request. */
  datatype Received = Received(path: string, token: string, version: string, body: Fields)

  /** The fake edge: its fields change under a lock as requests come in. */
  class FakeEdge {
    var token: string
    var file: string
    var requests: seq<Received>
    var script: seq<Response>
    var defaultAdmit: Response
    var defaultAttest: Scripted
    var defaultHealth: Scripted
    var rotateOnNextRequest: bool
    var rejectAllTokens: bool

    ghost function View(): State
      reads this
    {
      State(token, file, script, defaultAdmit, defaultAttest, defaultHealth, rotateOnNextRequest, rejectAllTokens)
    }

    constructor (minted: string)
      ensures InStep(View()) && token == minted && requests == []
      ensures script == [] && !rotateOnNextRequest && !rejectAllTokens
      ensures defaultAdmit == Always(Speaking(200, ALLOW_BODY)) && defaultAttest == Speaking(204, Empty)
    {
      token := minted;
      file := minted + "\n";
      requests := [];
      script := [];
      defaultAdmit := Always(Speaking(200, ALLOW_BODY));
      defaultAttest := Speaking(204, Empty);
      defaultHealth := Speaking(200, HEALTHY_BODY);
      rotateOnNextRequest := false;
      rejectAllTokens := false;
    }

    method RotateToken(minted: string)
      modifies this
      ensures View() == Rotate(old(View()), minted) && requests == old(requests)
    {
      token := minted;
      file := minted + "\n";
    }

    method Serve(path: string, body: Fields, presented: string, version: string, minted: string) returns (reply: Reply)
      modifies this
      ensures (View(), reply) == Handle(old(View()), path, body, presented, version, minted)
      ensures requests == old(requests) + [Received(path, presented, version, body)]
    {
      requests := requests + [Received(path, presented, version, body)];
      if path == HEALTH {
        return ReplyOf(defaultHealth);
      }
      if rotateOnNextRequest {
        rotateOnNextRequest := false;
        token := minted;
        file := minted + "\n";
      }
      if rejectAllTokens || presented != token {
        return ReplyOf(Speaking(401, Empty));
      }
      if version != "1" {
        return ReplyOf(WrongVersion(version));
      }
      if path == ATTEST {
        return ReplyOf(defaultAttest);
      }
      if path != ADMIT {
        return ReplyOf(NOT_FOUND);
      }
      var next := defaultAdmit;
      if |script| > 0 {
        next, script := script[0], script[1..];
      }
      return ReplyOf(Respond(next, body));
    }
  }

  /** How a request is answered: a health check whoever asks; else 401 for a wrong token, after any rotation due; 400 for
      another version; the attestation's answer; the next scripted response, which is used up, or the default; and 404
      elsewhere. */
  lemma AnswersExactly(e: State, path: string, body: Fields, token: string, version: string, minted: string)
    ensures var (f, reply) := Handle(e, path, body, token, version, minted);
            var c := if e.rotateOnNextRequest then e.(token := minted, file := minted + "\n", rotateOnNextRequest := false) else e;
            var ok := token == c.token && !e.rejectAllTokens;
            && (path == "/healthz" ==> f == e && reply == ReplyOf(e.defaultHealth))
            && (path != "/healthz" && !ok ==> f == c && reply == Answer(401, Some(["1"]), Empty))
            && (path != "/healthz" && ok && version != "1" ==>
                  f == c && reply == Answer(400, Some(["1"]), ErrorBody(
                    "X-Mitrity-Admission-Version must be \"1\", got \"" + version + "\"")))
            && (ok && version == "1" && path == "/v1/attest" ==> f == c && reply == ReplyOf(e.defaultAttest))
            && (ok && version == "1" && path == "/v1/admit" && e.script == [] ==>
                  f == c && reply == ReplyOf(Respond(e.defaultAdmit, body)))
            && (ok && version == "1" && path == "/v1/admit" && e.script != [] ==>
                  f == c.(script := e.script[1..]) && reply == ReplyOf(Respond(e.script[0], body)))
            && (ok && version == "1" && path !in {"/healthz", "/v1/attest", "/v1/admit"} ==>
                  f == c && reply == Answer(404, Some(["1"]), ErrorBody("not found")))
  {
    hide Respond, ReplyOf, WrongVersion, ErrorBody;
    PathsDiffer();
    ErrorReplies(version);
  }

  lemma PathsDiffer()
    ensures HEALTH == "/healthz" && ATTEST == "/v1/attest" && ADMIT == "/v1/admit"
    ensures |HEALTH| == 8 && |ATTEST| == 10 && |ADMIT| == 9
  {
  }

  lemma ErrorReplies(version: string)
    ensures ReplyOf(Speaking(401, Empty)) == Answer(401, Some(["1"]), Empty)
    ensures ReplyOf(WrongVersion(version)) == Answer(400, Some(["1"]), ErrorBody(
              "X-Mitrity-Admission-Version must be \"1\", got \"" + version + "\""))
    ensures ReplyOf(NOT_FOUND) == Answer(404, Some(["1"]), ErrorBody("not found"))
  {
    hide ErrorBody;
    assert HEADER_VERSION + " must be \"1\", got \"" + version + "\""
        == "X-Mitrity-Admission-Version must be \"1\", got \"" + version + "\"" by {
      assert HEADER_VERSION + " must be \"1\", got \"" == "X-Mitrity-Admission-Version must be \"1\", got \"";
    }
  }

  /** A scripted response goes out as it is, an unset status as 200. */
  lemma RepliesExactly(s: Scripted)
    ensures s.status != 0 ==> ReplyOf(s) == Answer(s.status, s.version, s.body)
    ensures s.status == 0 ==> ReplyOf(s) == ReplyOf(s.(status := 200))
  {
  }

  /** The default allow. */
  lemma AllowBodyParses()
    ensures ParseDecision(ALLOW_BODY) == Ok(Decision(Allow, "allowed", "adm-allow", 0.1, "", None, ""))
  {
    hide ParseDecision;
    AllowBodyDecides();
    ParsedCarries(ALLOW_BODY);
  }

  lemma AllowBodyDecides()
    ensures ParseDecision(ALLOW_BODY).Ok? && ParseDecision(ALLOW_BODY).value.kind == Allow
  {
    assert TextField(ALLOW_BODY.d.members, "decision") == "allow" && ParseKind("allow") == Some(Allow);
  }

  /** The hold budget of a request is the whole number it gives, toward zero. */
  lemma HoldBudgetExactly(body: Fields)
    ensures var n := HoldBudgetOf(body);
            if "hold_timeout_seconds" in body && body["hold_timeout_seconds"].DNumber? then
              var x := body["hold_timeout_seconds"].n;
              (x >= 0.0 ==> n as real <= x < (n + 1) as real) && (x < 0.0 ==> (n - 1) as real < x <= n as real)
            else n == -1
  {
  }

  // -------------------------------------------------------- token rotation

  /** The token file holds the token the edge accepts. */
  predicate InStep(e: State) {
    e.file == e.token + "\n"
  }

  /** A minted token: some text that no white space starts or ends. */
  predicate IsToken(t: string) {
    t != "" && !IsSpace(t[0]) && !IsSpace(t[|t| - 1])
  }

  /** The token a client presents when it finds this in its token file. */
  function Presents(file: string): string {
    var token := ReadToken("token", Contents(file));
    if token.Ok? then token.value else ""
  }

  /** A minted token survives the trip through the file. */
  lemma TokenSurvives(t: string)
    requires IsToken(t)
    ensures Presents(t + "\n") == t == TrimSpace(t + "\n")
    ensures forall path :: path != "" ==> ReadToken(path, Contents(t + "\n")) == Ok(t)
  {
    var file := t + "\n";
    assert TrimLeft(file) == file by {
      assert file[0] == t[0];
    }
    assert TrimRight(t) == t;
    assert file[|file| - 1] == '\n' && file[..|file| - 1] == t;
    assert TrimRight(file) == TrimRight(t);
  }

  /** Restarts while a request is under way: before the first attempt's token is checked, between the
      attempts, and before the second one's is checked; and the token a flagged rotation mints. */
  datatype Restarts = Restarts(first: seq<string>, between: seq<string>, second: seq<string>, flagged: string)

  function Count(e: State, r: Restarts): nat {
    |r.first| + |r.between| + |r.second| + (if e.rotateOnNextRequest then 1 else 0)
  }

  ghost predicate AllTokens(e: State, r: Restarts) {
    && IsToken(e.token) && IsToken(r.flagged)
    && forall t :: t in r.first || t in r.between || t in r.second ==> IsToken(t)
  }

  /** One attempt against the edge: the file is read, the edge may restart, and the token presented is checked. */
  function EdgeAttempt(e: State, restarts: seq<string>, minted: string, path: string, body: Fields): (Attempt, State) {
    var (after, reply) := Handle(RotateAll(e, restarts), path, body, Presents(e.file), PROTOCOL_VERSION, minted);
    (Attempt(Live, Contents(e.file), reply, Live), after)
  }

  /** The world's next two attempts are this edge's, with these restarts. */
  predicate ServedBy(w: World, at: nat, e: State, r: Restarts, path: string, body: Fields) {
    var (one, e1) := EdgeAttempt(e, r.first, r.flagged, path, body);
    var (two, e2) := EdgeAttempt(RotateAll(e1, r.between), r.second, r.flagged, path, body);
    w.attempts(at) == one && w.attempts(at + 1) == two
  }

  /** The edge never answers 401 for a reason other than the token. */
  predicate OnlyTokenRejects(e: State, path: string, body: Fields) {
    && !e.rejectAllTokens && e.defaultAttest.status != 401
    && Respond(e.defaultAdmit, body).status != 401
    && forall i :: 0 <= i < |e.script| ==> Respond(e.script[i], body).status != 401
  }

  lemma {:induction false} RotateAllKeeps(e: State, tokens: seq<string>)
    ensures var f := RotateAll(e, tokens);
            f == e.(token := if tokens == [] then e.token else tokens[|tokens| - 1],
                    file := if tokens == [] then e.file else tokens[|tokens| - 1] + "\n")
    decreases |tokens|
  {
    if tokens != [] {
      RotateAllKeeps(Rotate(e, tokens[0]), tokens[1..]);
    }
  }

  /** The token changes between being read and being checked. */
  predicate Changes(e: State, restarts: seq<string>, minted: string) {
    Checked(RotateAll(e, restarts), minted).token != e.token
  }

  /** A changed token is rejected, whatever else the edge does; and the edge stays in step. */
  lemma ChangedIsRejected(e: State, restarts: seq<string>, minted: string, path: string, body: Fields)
    requires InStep(e) && IsToken(e.token) && path != HEALTH
    ensures var (a, after) := EdgeAttempt(e, restarts, minted, path, body);
            && a.reply.Answer? && (Changes(e, restarts, minted) ==> a.reply.status == 401)
            && InStep(after) && !after.rotateOnNextRequest
            && after.token == Checked(RotateAll(e, restarts), minted).token
  {
    hide Respond, Presents, IsToken;
    TokenSurvives(e.token);
    RotateAllKeeps(e, restarts);
  }

  /** An attempt is rejected exactly when the token changed between reading it and checking it. */
  lemma RejectedIff(e: State, restarts: seq<string>, minted: string, path: string, body: Fields)
    requires InStep(e) && IsToken(e.token) && OnlyTokenRejects(e, path, body) && path != HEALTH
    ensures var (a, after) := EdgeAttempt(e, restarts, minted, path, body);
            && a.reply.Answer?
            && (a.reply.status == 401 <==> Changes(e, restarts, minted))
            && InStep(after) && OnlyTokenRejects(after, path, body) && !after.rotateOnNextRequest
            && after.token == Checked(RotateAll(e, restarts), minted).token
  {
    hide Presents, IsToken;
    TokenSurvives(e.token);
    RotateAllKeeps(e, restarts);
  }

  /** The edge as the second attempt's token is read. */
  function BeforeSecond(e: State, r: Restarts, path: string, body: Fields): State {
    RotateAll(EdgeAttempt(e, r.first, r.flagged, path, body).1, r.between)
  }

  /** The token changes between reading and checking in both attempts. */
  predicate ChangesTwice(e: State, r: Restarts, path: string, body: Fields) {
    Changes(e, r.first, r.flagged) && Changes(BeforeSecond(e, r, path, body), r.second, r.flagged)
  }

  lemma SecondInStep(e: State, r: Restarts, path: string, body: Fields)
    requires InStep(e) && AllTokens(e, r) && path != HEALTH
    ensures var f := BeforeSecond(e, r, path, body); InStep(f) && IsToken(f.token) && !f.rotateOnNextRequest
    ensures OnlyTokenRejects(e, path, body) ==> OnlyTokenRejects(BeforeSecond(e, r, path, body), path, body)
  {
    hide Handle, Accepted, Respond, IsToken;
    ChangedIsRejected(e, r.first, r.flagged, path, body);
    RotateAllKeeps(e, r.first);
    RotateAllKeeps(EdgeAttempt(e, r.first, r.flagged, path, body).1, r.between);
    if OnlyTokenRejects(e, path, body) {
      RejectedIff(e, r.first, r.flagged, path, body);
    }
  }

  /** What the retry loop makes of two attempts that met live contexts and readable tokens. */
  lemma TwoAttempts(s: Setup, w: World, at: nat, path: string, body: Fields, timeout: int)
    requires Sends(s, w, body)
    requires forall i :: at <= i <= at + 1 ==>
      var a := w.attempts(i);
      a.before.Live? && a.after.Live? && a.reply.Answer? && ReadToken(s.cfg.tokenFile, a.file).Ok?
    ensures RequestRun(s, w, at, path, body, timeout).result == Err(Unauthorized) <==>
      w.attempts(at).reply.status == 401 && w.attempts(at + 1).reply.status == 401
  {
    hide ReadToken;
  }

  /** Without the means to send, no token is ever rejected. */
  lemma UnsentIsNotRejected(s: Setup, w: World, at: nat, path: string, body: Fields, timeout: int)
    requires !Sends(s, w, body)
    ensures RequestRun(s, w, at, path, body, timeout).result != Err(Unauthorized)
  {
  }

  lemma ServedTwice(s: Setup, w: World, at: nat, path: string, body: Fields, timeout: int, e: State, r: Restarts)
    requires ServedBy(w, at, e, r, path, body) && path != HEALTH
    requires InStep(e) && AllTokens(e, r) && Sends(s, w, body)
    ensures RequestRun(s, w, at, path, body, timeout).result == Err(Unauthorized) <==>
      && EdgeAttempt(e, r.first, r.flagged, path, body).0.reply.status == 401
      && EdgeAttempt(BeforeSecond(e, r, path, body), r.second, r.flagged, path, body).0.reply.status == 401
  {
    hide Handle, TrimSpace, RequestRun, OnlyTokenRejects;
    SecondInStep(e, r, path, body);
    ChangedIsRejected(e, r.first, r.flagged, path, body);
    ChangedIsRejected(BeforeSecond(e, r, path, body), r.second, r.flagged, path, body);
    assert w.attempts(at) == EdgeAttempt(e, r.first, r.flagged, path, body).0;
    assert w.attempts(at + 1) == EdgeAttempt(BeforeSecond(e, r, path, body), r.second, r.flagged, path, body).0;
    TokenSurvives(e.token);
    TokenSurvives(BeforeSecond(e, r, path, body).token);
    TwoAttempts(s, w, at, path, body, timeout);
  }

  /** The token of each round trip is the edge's own, as the file had it when it was read. */
  lemma TokensAreTheEdges(s: Setup, w: World, at: nat, path: string, body: Fields, timeout: int, e: State, r: Restarts)
    requires ServedBy(w, at, e, r, path, body) && path != HEALTH && InStep(e) && AllTokens(e, r)
    ensures var trips := RequestRun(s, w, at, path, body, timeout).trips;
            && (|trips| >= 1 ==> trips[0].token == e.token)
            && (|trips| >= 2 ==> trips[1].token == BeforeSecond(e, r, path, body).token)
  {
    hide RequestRun, Handle, IsToken, ReadToken, Changes;
    RequestTrips(s, w, at, path, body, timeout);
    SecondInStep(e, r, path, body);
    var f := BeforeSecond(e, r, path, body);
    TokenSurvives(e.token);
    TokenSurvives(f.token);
    var trips := RequestRun(s, w, at, path, body, timeout).trips;
    assert w.attempts(at) == EdgeAttempt(e, r.first, r.flagged, path, body).0;
    assert w.attempts(at + 1) == EdgeAttempt(f, r.second, r.flagged, path, body).0;
    if |trips| >= 1 {
      assert FreshTrip(s, w, at, 0, path, body, trips[0]);
      NoPathNoToken(s, w.attempts(at).file);
    }
    if |trips| >= 2 {
      assert FreshTrip(s, w, at, 1, path, body, trips[1]);
    }
  }

  lemma NoPathNoToken(s: Setup, file: TokenFile)
    ensures ReadToken(s.cfg.tokenFile, file).Ok? ==> s.cfg.tokenFile != ""
  {
  }

  /** Against an edge that keeps its token file in step, a request fails as unauthorized exactly when it can be sent
      and the edge's token changes between reading and checking in both attempts. */
  lemma UnauthorizedIffChangedTwice(s: Setup, w: World, at: nat, path: string, body: Fields, timeout: int, e: State, r: Restarts)
    requires ServedBy(w, at, e, r, path, body) && path != HEALTH
    requires InStep(e) && AllTokens(e, r) && OnlyTokenRejects(e, path, body)
    ensures RequestRun(s, w, at, path, body, timeout).result == Err(Unauthorized) <==>
      Sends(s, w, body) && ChangesTwice(e, r, path, body)
  {
    hide RequestRun, EdgeAttempt, Changes, IsToken, OnlyTokenRejects, RotateAll;
    if Sends(s, w, body) {
      ServedTwice(s, w, at, path, body, timeout, e, r);
      SecondInStep(e, r, path, body);
      RejectedIff(e, r.first, r.flagged, path, body);
      RejectedIff(BeforeSecond(e, r, path, body), r.second, r.flagged, path, body);
    } else {
      UnsentIsNotRejected(s, w, at, path, body, timeout);
    }
  }

  /** An edge that keeps its token file in step and restarts at most once while a request is under way never
      makes that request fail as unauthorized: the one retry reads the new token. */
  lemma RotationTolerated(s: Setup, w: World, at: nat, path: string, body: Fields, timeout: int, e: State, r: Restarts)
    requires ServedBy(w, at, e, r, path, body) && path != HEALTH
    requires InStep(e) && AllTokens(e, r) && OnlyTokenRejects(e, path, body)
    requires Count(e, r) <= 1
    ensures RequestRun(s, w, at, path, body, timeout).result != Err(Unauthorized)
  {
    hide RequestRun, EdgeAttempt, OnlyTokenRejects, Sends, IsToken;
    UnauthorizedIffChangedTwice(s, w, at, path, body, timeout, e, r);
    SecondInStep(e, r, path, body);
    if Changes(e, r.first, r.flagged) {
      RotateAllKeeps(e, r.first);
      assert r.between == [] && r.second == [];
    }
  }

  /** Two restarts, each timed between reading and checking and each minting another token, defeat the one
      retry. */
  lemma TwoRotationsDefeat(s: Setup, w: World, at: nat, path: string, body: Fields, timeout: int, e: State, r: Restarts)
    requires Sends(s, w, body) && path != HEALTH && ServedBy(w, at, e, r, path, body)
    requires InStep(e) && AllTokens(e, r) && !e.rotateOnNextRequest
    requires |r.first| == 1 && r.between == [] && |r.second| == 1
    requires r.first[0] != e.token && r.second[0] != r.first[0]
    ensures RequestRun(s, w, at, path, body, timeout).result == Err(Unauthorized)
  {
    hide RequestRun, Handle, OnlyTokenRejects, Sends, IsToken;
    ServedTwice(s, w, at, path, body, timeout, e, r);
    SecondInStep(e, r, path, body);
    RotateAllKeeps(e, r.first);
    ChangedIsRejected(e, r.first, r.flagged, path, body);
    var f := BeforeSecond(e, r, path, body);
    RotateAllKeeps(f, r.second);
    ChangedIsRejected(f, r.second, r.flagged, path, body);
  }

  /** An edge as New leaves it, with token "a", that restarts once in each attempt: with "b", then with "c". */
  const FRESH_EDGE := State("a", "a\n", [], Always(Speaking(200, ALLOW_BODY)), Speaking(204, Empty),
                            Speaking(200, HEALTHY_BODY), false, false)
  const TWO_RESTARTS := Restarts(["b"], [], ["c"], "a")

  /** What a client meets there. */
  function RestartingWorld(path: string, body: Fields): World {
    var one := EdgeAttempt(FRESH_EDGE, ["b"], "a", path, body).0;
    var two := EdgeAttempt(BeforeSecond(FRESH_EDGE, TWO_RESTARTS, path, body), ["c"], "a", path, body).0;
    World((n: nat) => if n == 0 then one else two, (_: Fields) => Payload(0))
  }

  /** Against it any request that can be sent fails as unauthorized. */
  lemma RestartingWorldDefeats(s: Setup, path: string, body: Fields, timeout: int)
    requires s.accepted && s.cfg.tokenFile != "" && path != HEALTH
    ensures RequestRun(s, RestartingWorld(path, body), 0, path, body, timeout).result == Err(Unauthorized)
  {
    hide RequestRun, Handle, OnlyTokenRejects;
    var w := RestartingWorld(path, body);
    assert ServedBy(w, 0, FRESH_EDGE, TWO_RESTARTS, path, body);
    assert "b" != "a" && "c" != "b" by {
      assert "a"[0] == 'a' && "b"[0] == 'b' && "c"[0] == 'c';
    }
    TwoRotationsDefeat(s, w, 0, path, body, timeout, FRESH_EDGE, TWO_RESTARTS);
  }

  // ------------------------------------------------------------ hold script

  /** The edge answers the next two admit requests from the hold script `h`. */
  predicate HoldsWith(e: State, h: Response) {
    && (if e.script == [] then e.defaultAdmit == h else |e.script| >= 2 && e.script[0] == e.script[1] == h)
    && !e.rejectAllTokens && !e.rotateOnNextRequest
  }

  /** Against an edge that answers from a hold script, through its token and version checks, every waiting call
      gets the script's outcome: two requests go out, with budgets 0 and the whole seconds allowed, and the
      verdict is the outcome's. */
  lemma HoldResolves(s: Setup, w: World, at: nat, req: Request, budget: int, e: State, h: Response, minted: string)
    requires s.accepted && s.cfg.tokenFile != "" && Wire(WithHold(req, 0)).Ok? && WholeSeconds(budget) > 0
    requires forall body :: w.encode(body).Payload? && w.encode(body).size <= MAX_REQUEST_BYTES
    requires h.HoldScript? && HoldsWith(e, h) && InStep(e) && IsToken(e.token) && h.outcome.status != 401
    requires w.attempts(at) == EdgeAttempt(e, [], minted, ADMIT, Wire(WithHold(req, 0)).value).0
    requires Wire(WithHold(req, WholeSeconds(budget))).Ok? ==>
      w.attempts(at + 1) == EdgeAttempt(EdgeAttempt(e, [], minted, ADMIT, Wire(WithHold(req, 0)).value).1, [], minted,
                                        ADMIT, Wire(WithHold(req, WholeSeconds(budget))).value).0
    ensures var run := DecideRun(s, w, at, req, budget);
            && |run.trips| == 2
            && HoldBudgetOf(run.trips[0].body) == 0 && HoldBudgetOf(run.trips[1].body) == WholeSeconds(budget)
            && var outcome := ReplyOf(if h.outcome.status == 0 then Speaking(200, ALLOW_BODY) else h.outcome);
               var b := Interpret(outcome.status, outcome.version, outcome.body);
               if b.Ok? && ParseDecision(b.value).Ok? then run.verdict == VerdictFor(ParseDecision(b.value).value)
               else run.verdict.held && run.verdict.err.Some?
  {
    hide ParseDecision, TrimSpace, DecideRun, Respond, Wire, Interpret, VerdictFor, HoldBudgetOf;
    WireHold(req, 0, WholeSeconds(budget));
    TokenSurvives(e.token);
    ScriptResolves(s, w, at, req, budget, h, e.file);
  }

  /** The same of any two replies made by the script. */
  lemma ScriptResolves(s: Setup, w: World, at: nat, req: Request, budget: int, h: Response, raw: string)
    requires s.accepted && s.cfg.tokenFile != "" && TrimSpace(raw) != ""
    requires Wire(WithHold(req, 0)).Ok? && WholeSeconds(budget) > 0 && h.HoldScript?
    requires forall body :: w.encode(body).Payload? && w.encode(body).size <= MAX_REQUEST_BYTES
    requires var seconds := WholeSeconds(budget);
             && w.attempts(at) == Attempt(Live, Contents(raw), ReplyOf(Respond(h, Wire(WithHold(req, 0)).value)), Live)
             && Wire(WithHold(req, seconds)).Ok?
             && w.attempts(at + 1)
                == Attempt(Live, Contents(raw), ReplyOf(Respond(h, Wire(WithHold(req, seconds)).value)), Live)
    requires h.outcome.status != 401
    ensures var run := DecideRun(s, w, at, req, budget);
            && |run.trips| == 2
            && HoldBudgetOf(run.trips[0].body) == 0 && HoldBudgetOf(run.trips[1].body) == WholeSeconds(budget)
            && var outcome := ReplyOf(if h.outcome.status == 0 then Speaking(200, ALLOW_BODY) else h.outcome);
               var b := Interpret(outcome.status, outcome.version, outcome.body);
               if b.Ok? && ParseDecision(b.value).Ok? then run.verdict == VerdictFor(ParseDecision(b.value).value)
               else run.verdict.held && run.verdict.err.Some?
  {
    hide ParseDecision, TrimSpace, Carries, RequestRun, Interpret, HeldBody, ALLOW_BODY;
    var seconds := WholeSeconds(budget);
    WireVerbatim(WithHold(req, 0));
    WireVerbatim(WithHold(req, seconds));
    HeldBodyParses(h.approvalID);
    HeldInterpreted(h.approvalID);
    AnsweredOnce(s, w, at, ADMIT, Wire(WithHold(req, 0)).value, s.cfg.timeout, raw);
    AnsweredOnce(s, w, at + 1, ADMIT, Wire(WithHold(req, seconds)).value, seconds * SECOND + HOLD_MARGIN, raw);
  }

  lemma HeldInterpreted(approvalID: string)
    ensures HeldBody(approvalID).Document?
    ensures Interpret(200, Some(["1"]), HeldBody(approvalID)) == Ok(HeldBody(approvalID))
  {
  }

  /** A request that goes out and gets an answer other than a 401 is done in one round trip. */
  lemma AnsweredOnce(s: Setup, w: World, at: nat, path: string, body: Fields, timeout: int, raw: string)
    requires Sends(s, w, body) && TrimSpace(raw) != ""
    requires var a := w.attempts(at);
             a.before.Live? && a.file == Contents(raw) && a.reply.Answer? && a.reply.status != 401
    ensures var run, reply := RequestRun(s, w, at, path, body, timeout), w.attempts(at).reply;
            && run.result == Interpret(reply.status, reply.version, reply.body)
            && |run.trips| == 1 && run.trips[0].body == body && run.next == at + 1
  {
    hide TrimSpace, Interpret;
  }

  lemma HeldBodyParses(approvalID: string)
    ensures ParseDecision(HeldBody(approvalID)).Ok? && ParseDecision(HeldBody(approvalID)).value.kind == Held
    ensures Carries(HeldBody(approvalID), ParseDecision(HeldBody(approvalID)).value)
    ensures ParseDecision(HeldBody(approvalID)).value.approvalID == if approvalID == "" then "apr-hold" else approvalID
  {
    ParsedCarries(HeldBody(approvalID));
    assert TextField(HeldBody(approvalID).d.members, "decision") == "held" && ParseKind("held") == Some(Held);
  }
}
