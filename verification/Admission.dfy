/** The admission client (admission/client.go): one authenticated request with a single 401 retry, and the
    two-phase decision on top. The edge, the token file and the clock answer as they please: a World
    fixes, attempt by attempt, everything the client can observe, and every statement is for all worlds. */
module Admission {
  import opened Options
  import opened Protocol
  import opened Config
  import L = Loopback

  // ------------------------------------------------------------ environment

  /** The state of the request's context when the client looks at it. */
  datatype Context = Live | DeadlinePassed | CallerCanceled

  datatype TokenFile = Missing | Contents(raw: string)

  /** How one round trip ends. */
  datatype Reply =
    | TooLong                                                          // more body than an adapter reads
    | Broken(deadline: bool)                                           // a transport error; a deadline or not
    | Answer(status: int, version: Option<seq<string>>, body: Body)  // None: no version header

  /** What one pass of the retry loop observes: the context before it, the token file, the round trip, and
      the context after it. */
  datatype Attempt = Attempt(before: Context, file: TokenFile, reply: Reply, after: Context)

  /** What encoding a request body gives. */
  datatype Encoding = Unserializable | Payload(size: nat)

  datatype World = World(attempts: nat -> Attempt, encode: Fields -> Encoding)

  /** One round trip as it happened: what was sent, with which token, and the reply. */
  datatype Trip = Trip(path: string, body: Fields, token: string, reply: Reply)

  const ADMIT := "/v1/admit"
  const ATTEST := "/v1/attest"
  const PROTOCOL_VERSION := "1"
  const MAX_REQUEST_BYTES := 64 * 1024

  /** A client as built: its normalized configuration, and whether its address was accepted. */
  datatype Setup = Setup(cfg: Config, accepted: bool)

  function NewSetup(v6: string -> Option<L.Ip>, raw: Config): Setup {
    Setup(Normalized(raw), L.ValidateAddr(v6, raw.addr).None?)
  }

  // ---------------------------------------------------------- specification

  /** A request's outcome: its result, its round trips, the attempts used up, and the deadline it ran under
      (0 when it failed before starting the clock). */
  datatype Run<+T> = Run(result: Result<T>, trips: seq<Trip>, next: nat, deadline: int)

  function ContextKind(c: Context): Kind
    requires !c.Live?
  {
    if c.DeadlinePassed? then Timeout else Canceled
  }

  function ReadToken(path: string, file: TokenFile): Result<string> {
    if path == "" then Err(ConfigError)
    else match file
      case Missing => Err(Unreachable)
      case Contents(raw) => if TrimSpace(raw) == "" then Err(Unreachable) else Ok(TrimSpace(raw))
  }

  /** What a failed round trip is reported as. */
  function TransportKind(reply: Reply, after: Context): Kind
    requires !reply.Answer?
  {
    if reply.TooLong? then ProtocolError
    else if !after.Live? then ContextKind(after)
    else if reply.deadline then Timeout
    else Unreachable
  }

  /** The body a status, version header and body amount to, or the error the contract implies. */
  function Interpret(status: int, version: Option<seq<string>>, body: Body): Result<Body> {
    if version.Some? && |version.value| > 0 && version.value[0] != PROTOCOL_VERSION then Err(ProtocolError)
    else if status == 204 then Ok(Empty)
    else if status == 200 && version.None? then Err(ProtocolError)
    else if status == 503 then Err(NotReady)
    else if status == 400 then Err(ProtocolError)
    else if status != 200 then Err(ProtocolError)
    else if body.Empty? || body.NotJson? then Err(ProtocolError)
    else Ok(body)
  }

  /** The retry loop from attempt number `attempt` on. */
  function Attempts(s: Setup, w: World, at: nat, path: string, body: Fields, attempt: nat, deadline: int)
    : (r: Run<Body>)
    requires 1 <= attempt <= 2
    decreases 2 - attempt
  {
    var a := w.attempts(at);
    if !a.before.Live? then Run(Err(ContextKind(a.before)), [], at + 1, deadline)
    else match ReadToken(s.cfg.tokenFile, a.file)
      case Err(kind) => Run(Err(kind), [], at + 1, deadline)
      case Ok(token) =>
        var trip := Trip(path, body, token, a.reply);
        if !a.reply.Answer? then Run(Err(TransportKind(a.reply, a.after)), [trip], at + 1, deadline)
        else if a.reply.status != 401 then
          Run(Interpret(a.reply.status, a.reply.version, a.reply.body), [trip], at + 1, deadline)
        else if attempt == 1 && a.after.Live? then
          var later := Attempts(s, w, at + 1, path, body, 2, deadline);
          later.(trips := [trip] + later.trips)
        else Run(Err(Unauthorized), [trip], at + 1, deadline)
  }

  function RequestRun(s: Setup, w: World, at: nat, path: string, body: Fields, timeout: int): Run<Body> {
    if !s.accepted then Run(Err(ConfigError), [], at, 0)
    else match w.encode(body)
      case Unserializable => Run(Err(ProtocolError), [], at, 0)
      case Payload(size) =>
        if size > MAX_REQUEST_BYTES then Run(Err(PayloadTooLarge), [], at, 0)
        else Attempts(s, w, at, path, body, 1, timeout)
  }

  function AdmitRun(s: Setup, w: World, at: nat, req: Request, timeout: int): Run<Decision> {
    match Wire(req)
    case Err(kind) => Run(Err(kind), [], at, 0)
    case Ok(body) =>
      var r := RequestRun(s, w, at, ADMIT, body, timeout);
      var result := match r.result case Err(kind) => Err(kind) case Ok(b) => ParseDecision(b);
      Run(result, r.trips, r.next, r.deadline)
  }

  /** A whole decision: its verdict, both phases' round trips, and the sum of their deadlines. */
  datatype Decided = Decided(verdict: Verdict, trips: seq<Trip>, next: nat, deadline: int)

  function FirstPhase(s: Setup, w: World, at: nat, req: Request): Run<Decision> {
    AdmitRun(s, w, at, WithHold(req, 0), s.cfg.timeout)
  }

  function SecondPhase(s: Setup, w: World, at: nat, req: Request, seconds: int): Run<Decision> {
    AdmitRun(s, w, FirstPhase(s, w, at, req).next, WithHold(req, seconds), seconds * SECOND + HOLD_MARGIN)
  }

  function DecideRun(s: Setup, w: World, at: nat, req: Request, budget: int): Decided {
    var first := FirstPhase(s, w, at, req);
    match first.result
    case Err(kind) => Decided(UnreachableVerdict(kind), first.trips, first.next, first.deadline)
    case Ok(d) =>
      var seconds := WholeSeconds(budget);
      if d.kind != Held || seconds <= 0 then Decided(VerdictFor(d), first.trips, first.next, first.deadline)
      else
        var second := SecondPhase(s, w, at, req, seconds);
        var verdict :=
          match second.result case Err(kind) => HoldFailedVerdict(d, kind) case Ok(e) => VerdictFor(e);
        Decided(verdict, first.trips + second.trips, second.next, first.deadline + second.deadline)
  }

  // ------------------------------------------------------------- the client

  /** The wire the client talks over: the world it meets and, so far, the round trips made. */
  class Link {
    const world: World
    var cursor: nat
    ghost var trips: seq<Trip>
    ghost var granted: int  // the time granted to requests so far

    constructor (world: World)
      ensures this.world == world && cursor == 0 && trips == [] && granted == 0
    {
      this.world := world;
      cursor := 0;
      trips := [];
      granted := 0;
    }

    /** Starts a request's clock: context.WithTimeout. */
    ghost method Grant(timeout: int)
      modifies this`granted
      ensures granted == old(granted) + timeout
    {
      granted := granted + timeout;
    }

    function Now(): Attempt
      reads this
    {
      world.attempts(cursor)
    }

    /** Sends one request and takes the reply. */
    method RoundTrip(path: string, body: Fields, token: string) returns (reply: Reply, after: Context)
      modifies this`trips, this`cursor
      ensures reply == old(Now()).reply && after == old(Now()).after
      ensures trips == old(trips) + [Trip(path, body, token, reply)] && cursor == old(cursor) + 1
    {
      reply, after := Now().reply, Now().after;
      trips := trips + [Trip(path, body, token, reply)];
      cursor := cursor + 1;
    }

    /** Gives up an attempt before anything is sent. */
    method Abandon()
      modifies this`cursor
      ensures cursor == old(cursor) + 1
    {
      cursor := cursor + 1;
    }
  }

  class Client {
    const setup: Setup

    constructor (v6: string -> Option<L.Ip>, raw: Config)
      ensures setup == NewSetup(v6, raw) && setup.cfg == Normalized(raw)
      ensures setup.accepted <==> L.Dials(v6, raw.addr).Ok?
    {
      setup := NewSetup(v6, raw);
    }

    /** One request: at most one retry, after a 401, with the token file read again. */
    method Request(link: Link, path: string, body: Fields, timeout: int) returns (r: Result<Body>)
      modifies link
      ensures var run := RequestRun(setup, link.world, old(link.cursor), path, body, timeout);
              r == run.result && link.trips == old(link.trips) + run.trips && link.cursor == run.next
              && link.granted == old(link.granted) + run.deadline
    {
      hide ReadToken, Interpret, TransportKind;
      if !setup.accepted {
        return Err(ConfigError);
      }
      match link.world.encode(body) {
        case Unserializable => return Err(ProtocolError);
        case Payload(size) =>
          if size > MAX_REQUEST_BYTES {
            return Err(PayloadTooLarge);
          }
      }
      ghost var run := Attempts(setup, link.world, link.cursor, path, body, 1, timeout);
      link.Grant(timeout);
      var attempt := 1;
      while true
        invariant 1 <= attempt <= 2
        invariant var rest := Attempts(setup, link.world, link.cursor, path, body, attempt, timeout);
          run.result == rest.result && run.next == rest.next && link.trips + rest.trips == old(link.trips) + run.trips
        invariant link.granted == old(link.granted) + timeout && run.deadline == timeout
        decreases 2 - attempt
      {
        var before, file := link.Now().before, link.Now().file;
        if !before.Live? {
          link.Abandon();
          return Err(ContextKind(before));
        }
        var token := ReadToken(setup.cfg.tokenFile, file);
        if token.Err? {
          link.Abandon();
          return Err(token.kind);
        }
        var reply, after := link.RoundTrip(path, body, token.value);
        if !reply.Answer? {
          return Err(TransportKind(reply, after));
        }
        if reply.status == 401 {
          if attempt == 1 && after.Live? {
            attempt := attempt + 1;
            continue;
          }
          return Err(Unauthorized);
        }
        return Interpret(reply.status, reply.version, reply.body);
      }
    }

    method Admit(link: Link, req: Protocol.Request, timeout: int) returns (r: Result<Decision>)
      modifies link
      ensures var run := AdmitRun(setup, link.world, old(link.cursor), req, timeout);
              r == run.result && link.trips == old(link.trips) + run.trips && link.cursor == run.next
              && link.granted == old(link.granted) + run.deadline
    {
      var body := Wire(req);
      if body.Err? {
        return Err(body.kind);
      }
      var data := Request(link, ADMIT, body.value, timeout);
      if data.Err? {
        return Err(data.kind);
      }
      return ParseDecision(data.value);
    }

    /** The decision under the configured hold budget. */
    method Decide(link: Link, req: Protocol.Request) returns (v: Verdict)
      modifies link
      ensures var run := DecideRun(setup, link.world, old(link.cursor), req, setup.cfg.holdTimeout);
              v == run.verdict && link.trips == old(link.trips) + run.trips && link.cursor == run.next
              && link.granted == old(link.granted) + run.deadline
    {
      v := DecideWithin(link, req, setup.cfg.holdTimeout);
    }

    /** The decision under a budget the caller may lower but not raise. */
    method DecideWithHoldBudget(link: Link, req: Protocol.Request, budget: int) returns (v: Verdict)
      modifies link
      ensures var run := DecideRun(setup, link.world, old(link.cursor), req, HoldBudget(setup.cfg, budget));
              v == run.verdict && link.trips == old(link.trips) + run.trips && link.cursor == run.next
              && link.granted == old(link.granted) + run.deadline
    {
      var capped := if budget < 0 then 0 else budget;
      v := DecideWithin(link, req, if capped < setup.cfg.holdTimeout then capped else setup.cfg.holdTimeout);
    }

    /** The two-phase decision. It never fails: whatever goes wrong is a deny. */
    method DecideWithin(link: Link, req: Protocol.Request, budget: int) returns (v: Verdict)
      modifies link
      ensures var run := DecideRun(setup, link.world, old(link.cursor), req, budget);
              v == run.verdict && link.trips == old(link.trips) + run.trips && link.cursor == run.next
              && link.granted == old(link.granted) + run.deadline
    {
      hide AdmitRun;
      var first := Admit(link, WithHold(req, 0), setup.cfg.timeout);
      if first.Err? {
        return UnreachableVerdict(first.kind);
      }
      if first.value.kind != Held {
        return VerdictFor(first.value);
      }
      var seconds := WholeSeconds(budget);
      if seconds <= 0 {
        return VerdictFor(first.value);
      }
      var second := Admit(link, WithHold(req, seconds), seconds * SECOND + HOLD_MARGIN);
      if second.Err? {
        return HoldFailedVerdict(first.value, second.kind);
      }
      return VerdictFor(second.value);
    }

    method Attest(link: Link, body: Fields) returns (r: Result<Body>)
      modifies link
      ensures var run := RequestRun(setup, link.world, old(link.cursor), ATTEST, body, ATTEST_TIMEOUT);
              r == run.result && link.trips == old(link.trips) + run.trips && link.cursor == run.next
              && link.granted == old(link.granted) + run.deadline
    {
      r := Request(link, ATTEST, body, ATTEST_TIMEOUT);
    }
  }
}
