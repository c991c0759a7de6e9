/** The messages of the admission protocol (admission/types.go): what a request looks like on the wire,
    what counts as a decision, and the verdict a caller branches on. */
module Protocol {
  import opened Options

  /** A decoded JSON document: what json.Unmarshal yields. */
  datatype Data =
    | DNull
    | DBool(b: bool)
    | DNumber(n: real)
    | DString(s: string)
    | DArray(items: seq<Data>)
    | DObject(members: Fields)

  type Fields = map<string, Data>

  /** Why no decision was obtained. */
  datatype Kind =
    | ConfigError | Unreachable | Timeout | Canceled | Unauthorized | NotReady | ProtocolError | PayloadTooLarge

  datatype Result<+T> = Ok(value: T) | Err(kind: Kind) {

    predicate IsFailure() {
      Err?
    }

    function PropagateFailure<U>(): Result<U>
      requires Err?
    {
      Err(kind)
    }

    function Extract(): T
      requires Ok?
    {
      value
    }
  }

  // ---------------------------------------------------------------- request

  datatype Request = Request(
    toolName: string,
    toolInput: Option<Fields>,  // None is a nil map
    surface: string,
    frameworkVersion: string,
    sessionID: string,
    cwd: string,
    toolUseID: string,
    holdTimeoutSeconds: Option<int>)

  const SURFACE_CUSTOM := "custom"
  const FRAMEWORK_FOR_SURFACE: map<string, string> := map[
    "claude_code" := "claude-code",
    "claude_agent_sdk" := "claude-agent-sdk",
    "langchain" := "langchain",
    "openai_agents" := "openai-agents",
    "crewai" := "crewai",
    SURFACE_CUSTOM := "custom"]

  /** unicode.IsSpace. */
  predicate IsSpace(c: char) {
    || c in {'\t', '\n', '\U{B}', '\U{C}', '\r', ' ', '\U{85}', '\U{A0}', '\U{1680}', '\U{2028}', '\U{2029}',
             '\U{202F}', '\U{205F}', '\U{3000}'}
    || '\U{2000}' <= c <= '\U{200A}'
  }

  /** White space by code point: the ASCII controls from tab to carriage return, and Unicode's spaces. */
  lemma SpacesExactly(c: char)
    ensures var x := c as int;
            IsSpace(c) <==>
              || 0x9 <= x <= 0xD || x == 0x20 || x == 0x85 || x == 0xA0 || x == 0x1680 || 0x2000 <= x <= 0x200A
              || x == 0x2028 || x == 0x2029 || x == 0x202F || x == 0x205F || x == 0x3000
  {
  }

  function TrimLeft(s: string): string {
    if s != [] && IsSpace(s[0]) then TrimLeft(s[1..]) else s
  }

  function TrimRight(s: string): string {
    if s != [] && IsSpace(s[|s| - 1]) then TrimRight(s[..|s| - 1]) else s
  }

  /** strings.TrimSpace. */
  function TrimSpace(s: string): string {
    TrimRight(TrimLeft(s))
  }

  predicate AllSpace(s: string) {
    forall i :: 0 <= i < |s| ==> IsSpace(s[i])
  }

  /** The text is `core` between white space, and `core` neither starts nor ends with any. */
  ghost predicate Frames(s: string, core: string) {
    && (exists pre, post :: s == pre + core + post && AllSpace(pre) && AllSpace(post))
    && (core != "" ==> !IsSpace(core[0]) && !IsSpace(core[|core| - 1]))
  }

  lemma {:induction false} TrimLeftCuts(s: string) returns (pre: string)
    ensures s == pre + TrimLeft(s) && AllSpace(pre)
    ensures TrimLeft(s) != "" ==> !IsSpace(TrimLeft(s)[0])
  {
    if s != [] && IsSpace(s[0]) {
      pre := TrimLeftCuts(s[1..]);
      pre := [s[0]] + pre;
      assert s == [s[0]] + s[1..];
    } else {
      pre := "";
    }
  }

  lemma {:induction false} TrimRightCuts(s: string) returns (post: string)
    ensures s == TrimRight(s) + post && AllSpace(post)
    ensures TrimRight(s) != "" ==> !IsSpace(TrimRight(s)[|TrimRight(s)| - 1])
  {
    if s != [] && IsSpace(s[|s| - 1]) {
      post := TrimRightCuts(s[..|s| - 1]);
      assert s == s[..|s| - 1] + [s[|s| - 1]];
      post := post + [s[|s| - 1]];
    } else {
      post := "";
    }
  }

  /** Trimming leaves what white space frames; nothing is left exactly of white space. */
  lemma TrimExactly(s: string)
    ensures Frames(s, TrimSpace(s))
    ensures TrimSpace(s) == "" <==> AllSpace(s)
  {
    var pre := TrimLeftCuts(s);
    var post := TrimRightCuts(TrimLeft(s));
    assert s == pre + TrimSpace(s) + post;
    if TrimSpace(s) != "" {
      assert TrimSpace(s)[0] == TrimLeft(s)[0];
      assert s[|pre|] == TrimSpace(s)[0];
    }
  }

  function WithText(body: Fields, key: string, value: string): Fields {
    if value == "" then body else body[key := DString(value)]
  }

  /** The JSON object a request is sent as, or the protocol error that stops it before it is sent. */
  function Wire(r: Request): Result<Fields> {
    var surface := if r.surface == "" then SURFACE_CUSTOM else r.surface;
    if surface !in FRAMEWORK_FOR_SURFACE || TrimSpace(r.toolName) == "" then Err(ProtocolError)
    else
      var input := if r.toolInput.Some? then r.toolInput.value else map[];
      var body: Fields := map[
        "surface" := DString(surface), "tool_name" := DString(r.toolName), "tool_input" := DObject(input)];
      var body := WithText(body, "framework_version", r.frameworkVersion);
      var body := WithText(body, "session_id", r.sessionID);
      var body := WithText(body, "cwd", r.cwd);
      var body := WithText(body, "tool_use_id", r.toolUseID);
      match r.holdTimeoutSeconds
      case None => Ok(body)
      case Some(s) => if s < 0 then Err(ProtocolError) else Ok(body["hold_timeout_seconds" := DNumber(s as real)])
  }

  function WithHold(r: Request, seconds: int): Request {
    r.(holdTimeoutSeconds := Some(seconds))
  }

  /** What is on the wire is the caller's tool name and input, verbatim, and the hold budget as given. */
  lemma WireVerbatim(r: Request)
    requires Wire(r).Ok?
    ensures var body := Wire(r).value;
            && "tool_name" in body && body["tool_name"] == DString(r.toolName)
            && "tool_input" in body
            && body["tool_input"] == DObject(if r.toolInput.Some? then r.toolInput.value else map[])
            && (r.holdTimeoutSeconds.Some? <==> "hold_timeout_seconds" in body)
            && (r.holdTimeoutSeconds.Some? ==>
                  body["hold_timeout_seconds"] == DNumber(r.holdTimeoutSeconds.value as real))
  {
  }

  /** The field holds the text, and is absent for an empty one. */
  predicate TextAt(body: Fields, key: string, value: string) {
    if value == "" then key !in body else key in body && body[key] == DString(value)
  }

  /** Whether one of the surfaces the edge defines is named. */
  predicate NamesSurface(surface: string) {
    surface in {"claude_code", "claude_agent_sdk", "langchain", "openai_agents", "crewai", "custom"}
  }

  const REQUEST_KEYS: set<string> := {
    "surface", "tool_name", "tool_input", "framework_version", "session_id", "cwd", "tool_use_id", "hold_timeout_seconds"}

  /** A request is refused before it is sent exactly when its surface is unknown, its tool name blank or its hold
      negative. */
  lemma RefusedIff(r: Request)
    ensures Wire(r).Err? <==>
      || (r.surface != "" && !NamesSurface(r.surface)) || AllSpace(r.toolName)
      || (r.holdTimeoutSeconds.Some? && r.holdTimeoutSeconds.value < 0)
    ensures Wire(r).Err? ==> Wire(r) == Err(ProtocolError)
  {
    hide TrimSpace, WithText;
    TrimExactly(r.toolName);
  }

  lemma WithTextAt(body: Fields, key: string, value: string)
    requires key !in body
    ensures TextAt(WithText(body, key, value), key, value)
    ensures WithText(body, key, value).Keys <= body.Keys + {key}
    ensures forall k :: k != key ==>
      (k in body <==> k in WithText(body, key, value)) && (k in body ==> WithText(body, key, value)[k] == body[k])
  {
  }

  /** The keys differ in length, or in their first letter. */
  lemma RequestKeysDistinct()
    ensures |"surface"| == 7 && |"tool_name"| == 9 && |"tool_input"| == 10 && |"session_id"| == 10 && |"cwd"| == 3
    ensures |"framework_version"| == 17 && |"tool_use_id"| == 11 && |"hold_timeout_seconds"| == 20
    ensures "tool_input"[0] == 't' && "session_id"[0] == 's'
  {
  }

  function FourTexts(body: Fields, k1: string, v1: string, k2: string, v2: string, k3: string, v3: string, k4: string, v4: string)
    : Fields
  {
    WithText(WithText(WithText(WithText(body, k1, v1), k2, v2), k3, v3), k4, v4)
  }

  lemma FourTextsAt(body: Fields, k1: string, v1: string, k2: string, v2: string, k3: string, v3: string, k4: string, v4: string)
    requires k1 !in body && k2 !in body && k3 !in body && k4 !in body
    requires k1 != k2 && k1 != k3 && k1 != k4 && k2 != k3 && k2 != k4 && k3 != k4
    ensures var out := FourTexts(body, k1, v1, k2, v2, k3, v3, k4, v4);
            && TextAt(out, k1, v1) && TextAt(out, k2, v2) && TextAt(out, k3, v3) && TextAt(out, k4, v4)
            && out.Keys <= body.Keys + {k1, k2, k3, k4}
            && forall k :: k in body ==> k in out && out[k] == body[k]
  {
    hide WithText;
    var b1 := WithText(body, k1, v1);
    var b2 := WithText(b1, k2, v2);
    var b3 := WithText(b2, k3, v3);
    WithTextAt(body, k1, v1);
    WithTextAt(b1, k2, v2);
    WithTextAt(b2, k3, v3);
    WithTextAt(b3, k4, v4);
  }

  /** The members every request has. */
  function Required(r: Request): Fields {
    var input := if r.toolInput.Some? then r.toolInput.value else map[];
    map["surface" := DString(if r.surface == "" then "custom" else r.surface), "tool_name" := DString(r.toolName),
        "tool_input" := DObject(input)]
  }

  lemma RequiredAt(r: Request)
    ensures Required(r).Keys == {"surface", "tool_name", "tool_input"}
    ensures Required(r)["surface"] == DString(if r.surface == "" then "custom" else r.surface)
  {
    assert "surface"[0] == 's' && "tool_name"[0] == 't' && "tool_input"[0] == 't';
  }

  lemma WireIsFourTexts(r: Request)
    requires Wire(r).Ok?
    ensures var texts := FourTexts(Required(r), "framework_version", r.frameworkVersion, "session_id", r.sessionID,
                                   "cwd", r.cwd, "tool_use_id", r.toolUseID);
            Wire(r).value == if r.holdTimeoutSeconds.None? then texts
                             else texts["hold_timeout_seconds" := DNumber(r.holdTimeoutSeconds.value as real)]
  {
    hide WithText, TrimSpace;
  }

  /** What a request that is sent holds: each of its texts under the text's own key, and nothing else. */
  lemma WireTexts(r: Request)
    requires Wire(r).Ok?
    ensures var body := Wire(r).value;
            && body.Keys <= REQUEST_KEYS
            && TextAt(body, "surface", if r.surface == "" then "custom" else r.surface)
            && TextAt(body, "framework_version", r.frameworkVersion) && TextAt(body, "session_id", r.sessionID)
            && TextAt(body, "cwd", r.cwd) && TextAt(body, "tool_use_id", r.toolUseID)
  {
    hide Wire, FourTexts, Required;
    RequestKeysDistinct();
    RequiredAt(r);
    WireIsFourTexts(r);
    FourTextsAt(Required(r), "framework_version", r.frameworkVersion, "session_id", r.sessionID, "cwd", r.cwd,
                "tool_use_id", r.toolUseID);
    var texts := FourTexts(Required(r), "framework_version", r.frameworkVersion, "session_id", r.sessionID,
                           "cwd", r.cwd, "tool_use_id", r.toolUseID);
    assert texts["surface"] == Required(r)["surface"];
  }

  /** Two requests that differ only in a nonnegative budget differ on the wire in that one field, and are
      refused alike. */
  lemma WireHold(r: Request, a: nat, b: nat)
    ensures Wire(WithHold(r, a)).Ok? <==> Wire(WithHold(r, b)).Ok?
    ensures Wire(WithHold(r, a)).Ok? ==>
      Wire(WithHold(r, b)).value == Wire(WithHold(r, a)).value["hold_timeout_seconds" := DNumber(b as real)]
    ensures Wire(WithHold(r, a)).Err? ==> Wire(WithHold(r, a)) == Wire(WithHold(r, b)) == Err(ProtocolError)
  {
  }

  // --------------------------------------------------------------- response

  datatype DecisionKind = Allow | Deny | Held

  datatype Decision = Decision(
    kind: DecisionKind,
    reason: string,
    admissionID: string,
    riskScore: real,
    approvalID: string,
    updatedInput: Option<Fields>,
    routedTo: string)

  /** A response body as the client can tell bodies apart. */
  datatype Body =
    | Empty             // no bytes
    | NotJson           // bytes json.Valid refuses
    | OutOfRange        // valid JSON that json.Unmarshal refuses: a number no float64 holds
    | Document(d: Data)

  function TextField(members: Fields, key: string): string {
    if key in members && members[key].DString? then members[key].s else ""
  }

  function ParseKind(text: string): Option<DecisionKind> {
    match text
    case "allow" => Some(Allow)
    case "deny" => Some(Deny)
    case "held" => Some(Held)
    case _ => None
  }

  /** Parses a response body, refusing anything that is not a decision. */
  function ParseDecision(body: Body): Result<Decision> {
    if !body.Document? || !body.d.DObject? then Err(ProtocolError)
    else
      var members := body.d.members;
      match ParseKind(TextField(members, "decision"))
      case None => Err(ProtocolError)
      case Some(kind) =>
        if "risk_score" in members && !members["risk_score"].DNumber? then Err(ProtocolError)
        else if "updated_input" in members && !members["updated_input"].DNull? && !members["updated_input"].DObject? then
          Err(ProtocolError)
        else
          Ok(Decision(
            kind,
            TextField(members, "reason"),
            TextField(members, "admission_id"),
            if "risk_score" in members then members["risk_score"].n else 0.0,
            TextField(members, "approval_id"),
            if "updated_input" in members && members["updated_input"].DObject? then
              Some(members["updated_input"].members)
            else None,
            TextField(members, "routed_to")))
  }

  /** What an optional text member amounts to: itself if it is a text, else nothing. */
  predicate TextRead(members: Fields, key: string, value: string) {
    if key in members && members[key].DString? then value == members[key].s else value == ""
  }

  /** The decision is the one the body's members give, field by field. */
  predicate Carries(body: Body, d: Decision) {
    && body.Document? && body.d.DObject?
    && var members := body.d.members;
       && "decision" in members
       && members["decision"] == DString(match d.kind case Allow => "allow" case Deny => "deny" case Held => "held")
       && TextRead(members, "reason", d.reason) && TextRead(members, "admission_id", d.admissionID)
       && TextRead(members, "approval_id", d.approvalID) && TextRead(members, "routed_to", d.routedTo)
       && (if "risk_score" in members then members["risk_score"] == DNumber(d.riskScore) else d.riskScore == 0.0)
       && (if d.updatedInput.Some? then
             "updated_input" in members && members["updated_input"] == DObject(d.updatedInput.value)
           else "updated_input" !in members || members["updated_input"] == DNull)
  }

  lemma ParsedCarries(body: Body)
    ensures ParseDecision(body).Ok? ==> Carries(body, ParseDecision(body).value)
    ensures ParseDecision(body).Err? ==> ParseDecision(body) == Err(ProtocolError)
  {
  }

  // ---------------------------------------------------------------- verdict

  datatype Verdict = Verdict(
    allowed: bool,
    decision: Option<Decision>,
    err: Option<Kind>,
    updatedInput: Option<Fields>,
    routedTo: string,
    held: bool)
  {
    predicate PolicyDenied() {
      !allowed && err.None? && !held
    }

    predicate AdapterFailed() {
      err.Some?
    }
  }

  /** The verdict of a decision the edge made. */
  function VerdictFor(d: Decision): Verdict {
    match d.kind
    case Allow => Verdict(true, Some(d), None, d.updatedInput, d.routedTo, false)
    case Held => Verdict(false, Some(d), None, None, "", true)
    case Deny => Verdict(false, Some(d), None, None, "", false)
  }

  /** The verdict when phase 1 produced no decision. */
  function UnreachableVerdict(kind: Kind): Verdict {
    Verdict(false, None, Some(kind), None, "", false)
  }

  /** The verdict when a held call's second phase failed. */
  function HoldFailedVerdict(held: Decision, kind: Kind): Verdict {
    Verdict(false, Some(held), Some(kind), None, "", true)
  }
}
