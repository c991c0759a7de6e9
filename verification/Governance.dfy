/** The governor's own logic (govern/governor.go): the tool inventory, the attestation and its canonical
    document, when to attest, how a verdict is counted and what input runs. These are the atomic steps the
    Governor class performs under its lock and the interleaving model is built from. */
module Governance {
  import opened Options
  import opened Unicode
  import opened Ordering
  import opened Protocol
  import opened Config
  import opened Admission
  import C = Canonical
  import J = Json

  // ------------------------------------------------------ tool inventory

  /** Appends the names not there yet, skipping the empty one: dedupe. */
  function Dedupe(existing: seq<string>, names: seq<string>): seq<string>
    decreases |names|
  {
    if names == [] then existing
    else
      var out := if names[0] != "" && names[0] !in existing then existing + [names[0]] else existing;
      Dedupe(out, names[1..])
  }

  /** Adds one name, the empty one too: register. */
  function Register(hooked: seq<string>, name: string): seq<string> {
    if name in hooked then hooked else hooked + [name]
  }

  lemma {:induction false} DedupeElements(existing: seq<string>, names: seq<string>)
    ensures Elements(Dedupe(existing, names)) == Elements(existing) + (Elements(names) - {""})
    ensures NoDuplicates(existing) ==> NoDuplicates(Dedupe(existing, names))
    ensures existing <= Dedupe(existing, names)
    decreases |names|
  {
    if names != [] {
      var out := if names[0] != "" && names[0] !in existing then existing + [names[0]] else existing;
      DedupeElements(out, names[1..]);
      assert Elements(names) == {names[0]} + Elements(names[1..]);
      assert Elements(out) + (Elements(names[1..]) - {""}) == Elements(existing) + (Elements(names) - {""});
    }
  }

  lemma RegisterElements(hooked: seq<string>, name: string)
    ensures Elements(Register(hooked, name)) == Elements(hooked) + {name}
    ensures NoDuplicates(hooked) ==> NoDuplicates(Register(hooked, name))
    ensures hooked <= Register(hooked, name)
  {
  }

  // ------------------------------------------------------------ identity

  /** What New builds from its options, before any tool is declared. */
  datatype Identity = Identity(
    framework: string,
    version: string,
    surface: string,
    ungoverned: seq<string>,
    otherServers: seq<string>)

  datatype Setting =
    | WithFramework(name: string, version: string)
    | WithUngoverned(names: seq<string>)
    | WithOtherMCPServers(names: seq<string>)

  /** The request surface whose framework spelling is `name`, else custom. */
  function SurfaceFor(name: string): string {
    match name
    case "claude-code" => "claude_code"
    case "claude-agent-sdk" => "claude_agent_sdk"
    case "langchain" => "langchain"
    case "openai-agents" => "openai_agents"
    case "crewai" => "crewai"
    case _ => SURFACE_CUSTOM
  }

  function Apply(id: Identity, s: Setting): Identity {
    match s
    case WithFramework(name, version) => id.(framework := name, version := version, surface := SurfaceFor(name))
    case WithUngoverned(names) => id.(ungoverned := id.ungoverned + names)
    case WithOtherMCPServers(names) => id.(otherServers := id.otherServers + names)
  }

  function ApplyAll(id: Identity, settings: seq<Setting>): Identity
    decreases |settings|
  {
    if settings == [] then id else ApplyAll(Apply(id, settings[0]), settings[1..])
  }

  const BLANK := Identity("custom", "", SURFACE_CUSTOM, [], [])

  function Build(settings: seq<Setting>): Identity {
    var id := ApplyAll(BLANK, settings);
    id.(ungoverned := Dedupe([], id.ungoverned), otherServers := Dedupe([], id.otherServers))
  }

  /** The surface a request carries is always one the edge defines. */
  lemma {:induction false} SurfaceKnown(id: Identity, settings: seq<Setting>)
    requires id.surface in FRAMEWORK_FOR_SURFACE
    ensures ApplyAll(id, settings).surface in FRAMEWORK_FOR_SURFACE
    decreases |settings|
  {
    if settings != [] {
      SurfaceKnown(Apply(id, settings[0]), settings[1..]);
    }
  }

  /** The surface is the one whose framework spelling the name is, else custom. */
  lemma SurfaceExactly(name: string)
    ensures var surface := SurfaceFor(name);
            && surface in FRAMEWORK_FOR_SURFACE
            && (if exists k :: k in FRAMEWORK_FOR_SURFACE && FRAMEWORK_FOR_SURFACE[k] == name then
                  FRAMEWORK_FOR_SURFACE[surface] == name
                else surface == "custom")
  {
    assert SURFACE_CUSTOM in FRAMEWORK_FOR_SURFACE;
  }

  /** The spellings: underscores in a request, hyphens in an attestation. */
  lemma FrameworkSpellings()
    ensures FRAMEWORK_FOR_SURFACE.Keys == {"claude_code", "claude_agent_sdk", "langchain", "openai_agents", "crewai", "custom"}
    ensures FRAMEWORK_FOR_SURFACE["claude_code"] == "claude-code"
    ensures FRAMEWORK_FOR_SURFACE["claude_agent_sdk"] == "claude-agent-sdk"
    ensures FRAMEWORK_FOR_SURFACE["langchain"] == "langchain" && FRAMEWORK_FOR_SURFACE["openai_agents"] == "openai-agents"
    ensures FRAMEWORK_FOR_SURFACE["crewai"] == "crewai" && FRAMEWORK_FOR_SURFACE["custom"] == "custom"
  {
  }

  // --------------------------------------------------------- attestation

  const ADAPTER := "mitrity-go"
  const ADAPTER_VERSION := "0.1.0"

  function NullableString(s: string): C.Value {
    if s == "" then C.Nil else C.Str(s)
  }

  const KEY_ADAPTER := "adapter"
  const KEY_ADAPTER_VERSION := "adapter_version"
  const KEY_FRAMEWORK := "framework"
  const KEY_FRAMEWORK_VERSION := "framework_version"
  const KEY_HOOKED := "hooked_tools"
  const KEY_UNHOOKED := "unhooked_exec_tools"
  const KEY_DISALLOWED := "disallowed_tools"
  const KEY_OTHERS := "other_mcp_servers"

  /** The keys differ in length, or in their first letter. */
  lemma KeysDistinct()
    ensures |KEY_ADAPTER| == 7 && |KEY_ADAPTER_VERSION| == 15 && |KEY_FRAMEWORK| == 9
    ensures |KEY_HOOKED| == 12 && |KEY_UNHOOKED| == 19 && |KEY_DISALLOWED| == 16
    ensures |KEY_FRAMEWORK_VERSION| == |KEY_OTHERS| == 17 && KEY_FRAMEWORK_VERSION[0] != KEY_OTHERS[0]
  {
  }

  /** The hashed document over lists already sorted. */
  function DocumentOf(framework: string, version: string, hooked: seq<string>, ungoverned: seq<string>, others: seq<string>)
    : (v: C.Value)
    ensures v.Map?
  {
    C.Map(map[
      KEY_ADAPTER := C.Str(ADAPTER),
      KEY_ADAPTER_VERSION := C.Str(ADAPTER_VERSION),
      KEY_FRAMEWORK := C.Str(framework),
      KEY_FRAMEWORK_VERSION := NullableString(version),
      KEY_HOOKED := C.Strings(hooked),
      KEY_UNHOOKED := C.Strings(ungoverned),
      KEY_DISALLOWED := C.Strings([]),
      KEY_OTHERS := C.Strings(others)])
  }

  ghost function Sorted(names: seq<string>): seq<string> {
    Listing(ByUtf8, Elements(names))
  }

  ghost function Document(id: Identity, hooked: seq<string>): C.Value {
    DocumentOf(id.framework, id.version, Sorted(hooked), Sorted(id.ungoverned), Sorted(id.otherServers))
  }

  /** The value is a string, or null when empty. */
  predicate TextOrNull(v: C.Value, text: string) {
    if text == "" then v == C.Nil else v == C.Str(text)
  }

  /** The value is a list of exactly these names, in ascending byte order. */
  ghost predicate ListsNames(v: C.Value, names: set<string>) {
    v.Strings? && Ascending(ByUtf8, v.names) && Elements(v.names) == names
  }

  /** The hashed document has these eight members, and nothing else. */
  lemma DocumentExactly(id: Identity, hooked: seq<string>)
    ensures var v := Document(id, hooked);
            && v.Map?
            && v.m.Keys == {"adapter", "adapter_version", "framework", "framework_version", "hooked_tools",
                            "unhooked_exec_tools", "disallowed_tools", "other_mcp_servers"}
            && v.m["adapter"] == C.Str("mitrity-go") && v.m["adapter_version"] == C.Str("0.1.0")
            && v.m["framework"] == C.Str(id.framework) && TextOrNull(v.m["framework_version"], id.version)
            && ListsNames(v.m["hooked_tools"], Elements(hooked))
            && ListsNames(v.m["unhooked_exec_tools"], Elements(id.ungoverned))
            && v.m["disallowed_tools"] == C.Strings([])
            && ListsNames(v.m["other_mcp_servers"], Elements(id.otherServers))
  {
    SortedLists(hooked);
    SortedLists(id.ungoverned);
    SortedLists(id.otherServers);
    KeysDistinct();
    hide Sorted, Elements, Ascending;
    SameKeys();
    DocumentLookup(id.framework, id.version, Sorted(hooked), Sorted(id.ungoverned), Sorted(id.otherServers));
  }

  lemma SameKeys()
    ensures KEY_ADAPTER == "adapter" && KEY_ADAPTER_VERSION == "adapter_version" && KEY_FRAMEWORK == "framework"
    ensures KEY_FRAMEWORK_VERSION == "framework_version" && KEY_HOOKED == "hooked_tools"
    ensures KEY_UNHOOKED == "unhooked_exec_tools" && KEY_DISALLOWED == "disallowed_tools"
    ensures KEY_OTHERS == "other_mcp_servers" && ADAPTER == "mitrity-go" && ADAPTER_VERSION == "0.1.0"
  {
  }

  lemma DocumentLookup(framework: string, version: string, hooked: seq<string>, ungoverned: seq<string>, others: seq<string>)
    ensures var m := DocumentOf(framework, version, hooked, ungoverned, others).m;
            && m.Keys == {KEY_ADAPTER, KEY_ADAPTER_VERSION, KEY_FRAMEWORK, KEY_FRAMEWORK_VERSION, KEY_HOOKED,
                          KEY_UNHOOKED, KEY_DISALLOWED, KEY_OTHERS}
            && m[KEY_ADAPTER] == C.Str(ADAPTER) && m[KEY_ADAPTER_VERSION] == C.Str(ADAPTER_VERSION)
            && m[KEY_FRAMEWORK] == C.Str(framework) && m[KEY_FRAMEWORK_VERSION] == NullableString(version)
            && m[KEY_HOOKED] == C.Strings(hooked) && m[KEY_UNHOOKED] == C.Strings(ungoverned)
            && m[KEY_DISALLOWED] == C.Strings([]) && m[KEY_OTHERS] == C.Strings(others)
  {
    hide KEY_ADAPTER, KEY_ADAPTER_VERSION, KEY_FRAMEWORK, KEY_FRAMEWORK_VERSION, KEY_HOOKED, KEY_UNHOOKED,
      KEY_DISALLOWED, KEY_OTHERS, ADAPTER, ADAPTER_VERSION;
    KeysDistinct();
  }

  lemma DocumentMembers(framework: string, version: string, hooked: seq<string>, ungoverned: seq<string>, others: seq<string>)
    ensures var m := DocumentOf(framework, version, hooked, ungoverned, others).m;
            && (forall k :: k in m ==> m[k].Nil? || m[k].Str? || m[k].Strings?)
            && KEY_FRAMEWORK in m && m[KEY_FRAMEWORK] == C.Str(framework)
            && KEY_FRAMEWORK_VERSION in m && m[KEY_FRAMEWORK_VERSION] == NullableString(version)
            && KEY_HOOKED in m && m[KEY_HOOKED] == C.Strings(hooked)
            && KEY_UNHOOKED in m && m[KEY_UNHOOKED] == C.Strings(ungoverned)
            && KEY_OTHERS in m && m[KEY_OTHERS] == C.Strings(others)
  {
    hide KEY_ADAPTER, KEY_ADAPTER_VERSION, KEY_FRAMEWORK, KEY_FRAMEWORK_VERSION, KEY_HOOKED, KEY_UNHOOKED,
      KEY_DISALLOWED, KEY_OTHERS, ADAPTER, ADAPTER_VERSION;
    KeysDistinct();
  }

  /** The document is never refused, and its variable members denote what they hold. */
  lemma DocumentDenotes(framework: string, version: string, hooked: seq<string>, ungoverned: seq<string>, others: seq<string>)
    ensures var v := DocumentOf(framework, version, hooked, ungoverned, others);
            var d := C.Denote(v, true);
            && d == Some(C.DenoteMembers(v)) && d.value.Object?
            && var m := d.value.members;
               && KEY_FRAMEWORK in m && m[KEY_FRAMEWORK] == J.String(framework)
               && KEY_FRAMEWORK_VERSION in m
               && m[KEY_FRAMEWORK_VERSION] == (if version == "" then J.Null else J.String(version))
               && KEY_HOOKED in m && m[KEY_HOOKED] == J.Array(C.StringItems(hooked))
               && KEY_UNHOOKED in m && m[KEY_UNHOOKED] == J.Array(C.StringItems(ungoverned))
               && KEY_OTHERS in m && m[KEY_OTHERS] == J.Array(C.StringItems(others))
  {
    hide KEY_FRAMEWORK, KEY_FRAMEWORK_VERSION, KEY_HOOKED, KEY_UNHOOKED, KEY_OTHERS, DocumentOf;
    hide C.StringItems, C.DenoteMembers;
    DocumentMembers(framework, version, hooked, ungoverned, others);
    PlainMapDenotes(DocumentOf(framework, version, hooked, ungoverned, others));
  }

  /** A map of nulls, strings and string lists denotes the object of what each denotes. */
  lemma PlainMapDenotes(v: C.Value)
    requires v.Map? && forall k :: k in v.m ==> v.m[k].Nil? || v.m[k].Str? || v.m[k].Strings?
    ensures C.Denote(v, true) == Some(C.DenoteMembers(v)) && C.DenoteMembers(v).Object?
    ensures var m := C.DenoteMembers(v).members;
            && m.Keys == v.m.Keys
            && forall k :: k in m ==> m[k] == C.Denote(v.m[k], true).value
  {
    assert forall k :: k in v.m ==> C.Denote(v.m[k], true).Some?;
  }

  /** The canonical bytes the configuration hash is taken of. They always exist. */
  ghost function AttestationBytes(id: Identity, hooked: seq<string>): seq<Byte> {
    var b := C.CanonicalBytes(Document(id, hooked));
    if b.Some? then b.value else []
  }

  lemma StringItemsInjective(a: seq<string>, b: seq<string>)
    requires C.StringItems(a) == C.StringItems(b)
    ensures a == b
  {
    assert |a| == |b|;
    forall i | 0 <= i < |a|
      ensures a[i] == b[i]
    {
      assert C.StringItems(a)[i] == C.StringItems(b)[i];
    }
  }

  lemma SortedIffSameSet(a: seq<string>, b: seq<string>)
    ensures Sorted(a) == Sorted(b) <==> Elements(a) == Elements(b)
  {
    ListingSorted(ByUtf8, Elements(a));
    ListingSorted(ByUtf8, Elements(b));
  }

  /** Two identities with the same framework, version and sets of names, in whatever order. */
  predicate SamePosture(id: Identity, hooked: seq<string>, id': Identity, hooked': seq<string>) {
    && id.framework == id'.framework && id.version == id'.version
    && Elements(hooked) == Elements(hooked')
    && Elements(id.ungoverned) == Elements(id'.ungoverned)
    && Elements(id.otherServers) == Elements(id'.otherServers)
  }

  /** The hashed bytes identify the posture: they are equal exactly when framework, version and the three sets
      of names are. */
  lemma BytesIffSamePosture(id: Identity, hooked: seq<string>, id': Identity, hooked': seq<string>)
    ensures C.CanonicalBytes(Document(id, hooked)) == Some(AttestationBytes(id, hooked))
    ensures AttestationBytes(id, hooked) == AttestationBytes(id', hooked') <==> SamePosture(id, hooked, id', hooked')
  {
    hide C.Denote, Sorted, Elements, C.StringItems, DocumentOf;
    hide KEY_FRAMEWORK, KEY_FRAMEWORK_VERSION, KEY_HOOKED, KEY_UNHOOKED, KEY_OTHERS;
    var a, b := Document(id, hooked), Document(id', hooked');
    DocumentDenotes(id.framework, id.version, Sorted(hooked), Sorted(id.ungoverned), Sorted(id.otherServers));
    DocumentDenotes(id'.framework, id'.version, Sorted(hooked'), Sorted(id'.ungoverned), Sorted(id'.otherServers));
    C.Canonicity(a, b);
    SortedIffSameSet(hooked, hooked');
    SortedIffSameSet(id.ungoverned, id'.ungoverned);
    SortedIffSameSet(id.otherServers, id'.otherServers);
    var m, n := C.Denote(a, true).value.members, C.Denote(b, true).value.members;
    if m == n {
      assert m[KEY_FRAMEWORK] == n[KEY_FRAMEWORK] && m[KEY_FRAMEWORK_VERSION] == n[KEY_FRAMEWORK_VERSION];
      assert m[KEY_HOOKED] == n[KEY_HOOKED];
      assert m[KEY_UNHOOKED] == n[KEY_UNHOOKED];
      assert m[KEY_OTHERS] == n[KEY_OTHERS];
      StringItemsInjective(Sorted(hooked), Sorted(hooked'));
      StringItemsInjective(Sorted(id.ungoverned), Sorted(id'.ungoverned));
      StringItemsInjective(Sorted(id.otherServers), Sorted(id'.otherServers));
    }
  }

  // ------------------------------------- identity over whole histories

  /** What happens to the inventory after New. */
  datatype Change = Declared(names: seq<string>) | Registered(name: string)

  function Inventory(hooked: seq<string>, changes: seq<Change>): seq<string>
    decreases |changes|
  {
    if changes == [] then hooked
    else match changes[0]
      case Declared(names) => Inventory(Dedupe(hooked, names), changes[1..])
      case Registered(name) => Inventory(Register(hooked, name), changes[1..])
  }

  /** The names a history governs: every nonempty name declared and every name called. */
  function GovernedNames(changes: seq<Change>): set<string>
    decreases |changes|
  {
    if changes == [] then {}
    else match changes[0]
      case Declared(names) => (Elements(names) - {""}) + GovernedNames(changes[1..])
      case Registered(name) => {name} + GovernedNames(changes[1..])
  }

  lemma {:induction false} InventoryElements(hooked: seq<string>, changes: seq<Change>)
    requires NoDuplicates(hooked)
    ensures Elements(Inventory(hooked, changes)) == Elements(hooked) + GovernedNames(changes)
    ensures NoDuplicates(Inventory(hooked, changes))
    ensures hooked <= Inventory(hooked, changes)
    decreases |changes|
  {
    if changes != [] {
      match changes[0] {
        case Declared(names) =>
          DedupeElements(hooked, names);
          InventoryElements(Dedupe(hooked, names), changes[1..]);
        case Registered(name) =>
          RegisterElements(hooked, name);
          InventoryElements(Register(hooked, name), changes[1..]);
      }
    }
  }

  function UngovernedNames(settings: seq<Setting>): set<string>
    decreases |settings|
  {
    if settings == [] then {}
    else (if settings[0].WithUngoverned? then Elements(settings[0].names) else {}) + UngovernedNames(settings[1..])
  }

  function OtherServerNames(settings: seq<Setting>): set<string>
    decreases |settings|
  {
    if settings == [] then {}
    else (if settings[0].WithOtherMCPServers? then Elements(settings[0].names) else {}) + OtherServerNames(settings[1..])
  }

  /** The framework and version of the last WithFramework, else custom and none. */
  function Framework(settings: seq<Setting>): (string, string) {
    if settings == [] then ("custom", "")
    else
      var last := settings[|settings| - 1];
      if last.WithFramework? then (last.name, last.version) else Framework(settings[..|settings| - 1])
  }

  lemma {:induction false} ApplyAllSnoc(id: Identity, settings: seq<Setting>, s: Setting)
    ensures ApplyAll(id, settings + [s]) == Apply(ApplyAll(id, settings), s)
    decreases |settings|
  {
    if settings == [] {
      assert ([] + [s])[1..] == [];
      assert settings + [s] == [s];
    } else {
      assert (settings + [s])[1..] == settings[1..] + [s];
      ApplyAllSnoc(Apply(id, settings[0]), settings[1..], s);
    }
  }

  lemma {:induction false} ApplyAllFramework(settings: seq<Setting>)
    ensures var id := ApplyAll(BLANK, settings);
            (id.framework, id.version) == Framework(settings) && id.surface == SurfaceFor(id.framework)
    decreases |settings|
  {
    if settings != [] {
      var init, last := settings[..|settings| - 1], settings[|settings| - 1];
      assert settings == init + [last];
      ApplyAllSnoc(BLANK, init, last);
      ApplyAllFramework(init);
    }
  }

  lemma {:induction false} ApplyAllNames(id: Identity, settings: seq<Setting>)
    ensures Elements(ApplyAll(id, settings).ungoverned) == Elements(id.ungoverned) + UngovernedNames(settings)
    ensures Elements(ApplyAll(id, settings).otherServers) == Elements(id.otherServers) + OtherServerNames(settings)
    decreases |settings|
  {
    if settings != [] {
      var next := Apply(id, settings[0]);
      assert Elements(next.ungoverned) == Elements(id.ungoverned)
        + (if settings[0].WithUngoverned? then Elements(settings[0].names) else {});
      assert Elements(next.otherServers) == Elements(id.otherServers)
        + (if settings[0].WithOtherMCPServers? then Elements(settings[0].names) else {});
      ApplyAllNames(next, settings[1..]);
    }
  }

  lemma BuildNames(settings: seq<Setting>)
    ensures var id := Build(settings);
            && (id.framework, id.version) == Framework(settings) && id.surface == SurfaceFor(id.framework)
            && Elements(id.ungoverned) == UngovernedNames(settings) - {""}
            && Elements(id.otherServers) == OtherServerNames(settings) - {""}
            && NoDuplicates(id.ungoverned) && NoDuplicates(id.otherServers)
  {
    var id := ApplyAll(BLANK, settings);
    ApplyAllFramework(settings);
    ApplyAllNames(BLANK, settings);
    DedupeElements([], id.ungoverned);
    DedupeElements([], id.otherServers);
  }

  /** Attestation identity: whatever options, declarations and calls led there, in any order and with any
      repetitions, two governors hash the same bytes exactly when the last framework and version, the governed
      names, the ungoverned names and the other servers are the same. */
  lemma AttestationIdentity(settings: seq<Setting>, changes: seq<Change>, settings': seq<Setting>, changes': seq<Change>)
    ensures
      (AttestationBytes(Build(settings), Inventory([], changes))
       == AttestationBytes(Build(settings'), Inventory([], changes')))
      <==>
        && Framework(settings) == Framework(settings')
        && GovernedNames(changes) == GovernedNames(changes')
        && UngovernedNames(settings) - {""} == UngovernedNames(settings') - {""}
        && OtherServerNames(settings) - {""} == OtherServerNames(settings') - {""}
  {
    hide AttestationBytes, Build, Inventory, GovernedNames, UngovernedNames, OtherServerNames;
    BuildNames(settings);
    BuildNames(settings');
    InventoryElements([], changes);
    InventoryElements([], changes');
    BytesIffSamePosture(Build(settings), Inventory([], changes), Build(settings'), Inventory([], changes'));
  }

  // --------------------------------------------------- the atomic steps

  const RETRY_INTERVAL := 30 * SECOND

  datatype Stats = Stats(admitted: nat, allowed: nat, denied: nat, held: nat, unreachable: nat, routed: nat)

  const NO_STATS := Stats(0, 0, 0, 0, 0, 0)

  /** The state every governed call shares. */
  datatype Shared = Shared(
    hooked: seq<string>,
    attested: map<string, string>,  // by session, the hash last acknowledged
    attempted: map<string, int>,    // by session, when an attestation was last started
    stats: Stats)

  /** An agent's fixed parts: its client, its identity and the hash its attestations carry. */
  datatype Agent = Agent(setup: Setup, id: Identity, hash: seq<Byte> -> string)

  ghost function Digest(ag: Agent, hooked: seq<string>): string {
    ag.hash(AttestationBytes(ag.id, hooked))
  }

  /** The hash tells these inventories' attestations apart, and is not empty on any of them. */
  ghost predicate DistinctDigests(ag: Agent, inventories: set<seq<string>>) {
    forall a, b :: a in inventories && b in inventories ==>
      Digest(ag, a) != "" && (Digest(ag, a) == Digest(ag, b) ==> AttestationBytes(ag.id, a) == AttestationBytes(ag.id, b))
  }

  lemma DigestsTellNames(ag: Agent, inventories: set<seq<string>>, a: seq<string>, b: seq<string>)
    requires DistinctDigests(ag, inventories) && a in inventories && b in inventories
    ensures Digest(ag, a) == Digest(ag, b) <==> Elements(a) == Elements(b)
  {
    hide AttestationBytes;
    BytesIffSamePosture(ag.id, a, ag.id, b);
  }

  /** A retry is held back: the session was never attested and its last attempt is too recent. */
  predicate Throttled(sh: Shared, session: string, now: int) {
    session in sh.attempted && session !in sh.attested && now - sh.attempted[session] < RETRY_INTERVAL
  }

  /** The hash a session's last acknowledged attestation carried; an absent entry reads as empty. */
  function AttestedHash(sh: Shared, session: string): string {
    if session in sh.attested then sh.attested[session] else ""
  }

  /** Whether a call is to attest: shouldAttest's answer and the state it leaves. */
  function Consider(sh: Shared, session: string, digest: string, now: int): (bool, Shared) {
    if AttestedHash(sh, session) == digest || Throttled(sh, session, now) then (false, sh)
    else (true, sh.(attempted := sh.attempted[session := now]))
  }

  /** A call goes on with its configuration not attested, and nothing sent, exactly when it is throttled. */
  lemma SkipsUnattestedIff(sh: Shared, session: string, digest: string, now: int)
    requires digest != ""
    ensures var (due, _) := Consider(sh, session, digest, now);
            !due && !(session in sh.attested && sh.attested[session] == digest) <==> Throttled(sh, session, now)
  {
  }

  function Acknowledge(sh: Shared, session: string, digest: string): Shared {
    sh.(attested := sh.attested[session := digest])
  }

  /** Counting an outcome: one of four counters, and a held one besides when the hold's second phase failed. */
  function CountVerdict(st: Stats, v: Verdict): Stats {
    if v.allowed then st.(allowed := st.allowed + 1)
    else if v.AdapterFailed() then
      st.(unreachable := st.unreachable + 1, held := if v.held then st.held + 1 else st.held)
    else if v.held then st.(held := st.held + 1)
    else st.(denied := st.denied + 1)
  }

  function CountRouted(st: Stats, v: Verdict): Stats {
    if v.allowed && v.routedTo != "" then st.(routed := st.routed + 1) else st
  }

  /** The input to run: the edge's keys over the caller's. */
  function Merge(input: Fields, updated: Option<Fields>): (merged: Fields)
    ensures forall k :: k in merged <==> k in input || (updated.Some? && k in updated.value)
    ensures forall k :: k in merged ==>
      merged[k] == if updated.Some? && k in updated.value then updated.value[k] else input[k]
  {
    if updated.Some? then input + updated.value else input
  }

  /** One governed call, as its caller made it. */
  datatype Invocation = Invocation(session: string, tool: string, input: Fields, cwd: string, toolUseID: string)

  function RequestFor(ag: Agent, c: Invocation): Protocol.Request {
    Protocol.Request(c.tool, Some(c.input), ag.id.surface, ag.id.version, c.session, c.cwd, c.toolUseID, None)
  }

  function TextArray(names: seq<string>): Data {
    DArray(seq(|names|, i requires 0 <= i < |names| => DString(names[i])))
  }

  function WithNames(body: Fields, key: string, names: seq<string>): Fields {
    if names == [] then body else body[key := TextArray(names)]
  }

  /** The attestation as sent: empty lists and strings are omitted, and no session is named. */
  function AttestWire(id: Identity, hooked: seq<string>, ungoverned: seq<string>, others: seq<string>, digest: string)
    : Fields
  {
    var body: Fields := map[
      "framework" := DString(id.framework), "adapter" := DString(ADAPTER), "adapter_version" := DString(ADAPTER_VERSION)];
    var body := WithText(body, "framework_version", id.version);
    var body := WithNames(body, "hooked_tools", hooked);
    var body := WithNames(body, "unhooked_exec_tools", ungoverned);
    var body := WithNames(body, "other_mcp_servers", others);
    WithText(body, "config_hash", digest)
  }

  ghost function AttestBody(ag: Agent, hooked: seq<string>): Fields {
    AttestWire(ag.id, Sorted(hooked), Sorted(ag.id.ungoverned), Sorted(ag.id.otherServers), Digest(ag, hooked))
  }

  // ------------------------------------------------ what is sent, key by key

  /** The field is an array of exactly these names, in ascending byte order. */
  ghost predicate Lists(d: Data, names: set<string>) {
    d.DArray? && exists list: seq<string> ::
      && |list| == |d.items| && (forall i :: 0 <= i < |list| ==> d.items[i] == DString(list[i]))
      && Ascending(ByUtf8, list) && Elements(list) == names
  }

  /** The field lists these names, and is absent for none. */
  ghost predicate ListAt(body: Fields, key: string, names: set<string>) {
    if names == {} then key !in body else key in body && Lists(body[key], names)
  }

  predicate NamesTool(body: Fields, key: string, tool: string) {
    key in body && body[key].DArray? && DString(tool) in body[key].items
  }

  lemma ListNames(body: Fields, key: string, names: set<string>, tool: string)
    requires ListAt(body, key, names) && tool in names
    ensures NamesTool(body, key, tool)
  {
    hide Elements, Ascending;
    var items := body[key].items;
    var list: seq<string> :| |list| == |items| && (forall i :: 0 <= i < |list| ==> items[i] == DString(list[i]))
      && Ascending(ByUtf8, list) && Elements(list) == names;
    assert tool in list by {
      ElementIn(list, tool);
    }
    var i :| 0 <= i < |list| && list[i] == tool;
    assert items[i] == DString(tool);
  }

  lemma ElementIn(list: seq<string>, name: string)
    ensures name in Elements(list) <==> name in list
  {
  }

  lemma WithNamesAt(body: Fields, key: string, list: seq<string>)
    requires key !in body && Ascending(ByUtf8, list)
    ensures ListAt(WithNames(body, key, list), key, Elements(list))
    ensures WithNames(body, key, list).Keys <= body.Keys + {key}
    ensures forall k :: k in body ==> k in WithNames(body, key, list) && WithNames(body, key, list)[k] == body[k]
    ensures forall k :: k != key && k !in body ==> k !in WithNames(body, key, list)
  {
    if list != [] {
      assert list[0] in Elements(list);
      assert Lists(TextArray(list), Elements(list));
    } else {
      assert Elements(list) == {};
    }
  }

  function ThreeLists(body: Fields, k1: string, l1: seq<string>, k2: string, l2: seq<string>, k3: string, l3: seq<string>)
    : Fields
  {
    WithNames(WithNames(WithNames(body, k1, l1), k2, l2), k3, l3)
  }

  lemma ThreeListsAt(body: Fields, k1: string, l1: seq<string>, k2: string, l2: seq<string>, k3: string, l3: seq<string>)
    requires k1 !in body && k2 !in body && k3 !in body && k1 !in {k2, k3} && k2 != k3
    requires Ascending(ByUtf8, l1) && Ascending(ByUtf8, l2) && Ascending(ByUtf8, l3)
    ensures var out := ThreeLists(body, k1, l1, k2, l2, k3, l3);
            && ListAt(out, k1, Elements(l1)) && ListAt(out, k2, Elements(l2)) && ListAt(out, k3, Elements(l3))
            && out.Keys <= body.Keys + {k1, k2, k3}
            && forall k :: k in body ==> k in out && out[k] == body[k]
  {
    hide WithNames, Ascending, Elements, Lists;
    var b1 := WithNames(body, k1, l1);
    var b2 := WithNames(b1, k2, l2);
    WithNamesAt(body, k1, l1);
    WithNamesAt(b1, k2, l2);
    WithNamesAt(b2, k3, l3);
  }

  function FiveFields(body: Fields, k1: string, v1: string, k2: string, l2: seq<string>, k3: string, l3: seq<string>,
                      k4: string, l4: seq<string>, k5: string, v5: string): Fields
  {
    WithText(ThreeLists(WithText(body, k1, v1), k2, l2, k3, l3, k4, l4), k5, v5)
  }

  lemma FiveFieldsAt(body: Fields, k1: string, v1: string, k2: string, l2: seq<string>, k3: string, l3: seq<string>,
                     k4: string, l4: seq<string>, k5: string, v5: string)
    requires k1 !in body && k2 !in body && k3 !in body && k4 !in body && k5 !in body
    requires k1 !in {k2, k3, k4, k5} && k2 !in {k3, k4, k5} && k3 !in {k4, k5} && k4 != k5
    requires Ascending(ByUtf8, l2) && Ascending(ByUtf8, l3) && Ascending(ByUtf8, l4)
    ensures var out := FiveFields(body, k1, v1, k2, l2, k3, l3, k4, l4, k5, v5);
            && TextAt(out, k1, v1) && ListAt(out, k2, Elements(l2)) && ListAt(out, k3, Elements(l3))
            && ListAt(out, k4, Elements(l4)) && TextAt(out, k5, v5)
            && out.Keys <= body.Keys + {k1, k2, k3, k4, k5}
            && forall k :: k in body ==> k in out && out[k] == body[k]
  {
    hide WithText, ThreeLists, Ascending, Elements, Lists;
    var b1 := WithText(body, k1, v1);
    var b2 := ThreeLists(b1, k2, l2, k3, l3, k4, l4);
    WithTextAt(body, k1, v1);
    ThreeListsAt(b1, k2, l2, k3, l3, k4, l4);
    WithTextAt(b2, k5, v5);
  }

  const ATTEST_KEYS: set<string> := {
    "framework", "adapter", "adapter_version", "framework_version", "hooked_tools", "unhooked_exec_tools",
    "other_mcp_servers", "config_hash"}

  /** The body reports this posture: its texts and its three lists under their own keys, the hash of the canonical
      document, and nothing else. */
  ghost predicate Reports(ag: Agent, hooked: seq<string>, body: Fields) {
    && body.Keys <= ATTEST_KEYS
    && "framework" in body && body["framework"] == DString(ag.id.framework)
    && "adapter" in body && body["adapter"] == DString("mitrity-go")
    && "adapter_version" in body && body["adapter_version"] == DString("0.1.0")
    && TextAt(body, "framework_version", ag.id.version)
    && ListAt(body, "hooked_tools", Elements(hooked))
    && ListAt(body, "unhooked_exec_tools", Elements(ag.id.ungoverned))
    && ListAt(body, "other_mcp_servers", Elements(ag.id.otherServers))
    && C.CanonicalBytes(Document(ag.id, hooked)).Some?
    && TextAt(body, "config_hash", ag.hash(C.CanonicalBytes(Document(ag.id, hooked)).value))
  }

  /** The keys differ in length, or in their first letter. */
  lemma AttestKeysDistinct()
    ensures |"framework"| == 9 && |"adapter"| == 7 && |"adapter_version"| == 15 && |"hooked_tools"| == 12
    ensures |"unhooked_exec_tools"| == 19 && |"config_hash"| == 11
    ensures |"framework_version"| == 17 == |"other_mcp_servers"|
    ensures "framework_version"[0] == 'f' && "other_mcp_servers"[0] == 'o'
  {
  }

  /** What every attestation sent says of the runtime. */
  lemma AttestReports(ag: Agent, hooked: seq<string>)
    ensures Reports(ag, hooked, AttestBody(ag, hooked))
  {
    hide Elements, Ascending, WithNames, WithText, ThreeLists, Document, C.CanonicalBytes, AttestationBytes, FiveFields, ListAt, Sorted;
    AttestKeysDistinct();
    SortedLists(hooked);
    SortedLists(ag.id.ungoverned);
    SortedLists(ag.id.otherServers);
    BytesIffSamePosture(ag.id, hooked, ag.id, hooked);
    var base := AttestBase(ag.id);
    FiveFieldsAt(base, "framework_version", ag.id.version, "hooked_tools", Sorted(hooked),
                 "unhooked_exec_tools", Sorted(ag.id.ungoverned), "other_mcp_servers", Sorted(ag.id.otherServers),
                 "config_hash", Digest(ag, hooked));
    AttestIsFiveFields(ag, hooked);
  }

  /** The members every attestation has. */
  function AttestBase(id: Identity): Fields {
    map["framework" := DString(id.framework), "adapter" := DString("mitrity-go"), "adapter_version" := DString("0.1.0")]
  }

  lemma AttestIsFiveFields(ag: Agent, hooked: seq<string>)
    ensures AttestBody(ag, hooked)
         == FiveFields(AttestBase(ag.id), "framework_version", ag.id.version, "hooked_tools", Sorted(hooked),
                       "unhooked_exec_tools", Sorted(ag.id.ungoverned), "other_mcp_servers", Sorted(ag.id.otherServers),
                       "config_hash", Digest(ag, hooked))
  {
    hide WithNames, WithText, Sorted, Digest;
  }

  lemma SortedLists(names: seq<string>)
    ensures Ascending(ByUtf8, Sorted(names)) && Elements(Sorted(names)) == Elements(names)
  {
    ListingSorted(ByUtf8, Elements(names));
  }

  ghost function AttestRun(ag: Agent, w: World, at: nat, hooked: seq<string>): Run<Body> {
    RequestRun(ag.setup, w, at, ATTEST, AttestBody(ag, hooked), ATTEST_TIMEOUT)
  }

  // ------------------------------------------- a call with no other beside it

  /** What a stretch of a call did: the shared state after it, its round trips, and the attempts used up. */
  datatype Effect<+T> = Effect(result: T, sh: Shared, trips: seq<Trip>, next: nat)

  /** Attests if the session is due, recording an acknowledged attestation. */
  ghost function EnsureAlone(ag: Agent, w: World, at: nat, sh: Shared, session: string, now: int): Effect<()> {
    var digest := Digest(ag, sh.hooked);
    var (due, sh') := Consider(sh, session, digest, now);
    if !due then Effect((), sh', [], at)
    else
      var run := AttestRun(ag, w, at, sh.hooked);
      Effect((), if run.result.Ok? then Acknowledge(sh', session, digest) else sh', run.trips, run.next)
  }

  /** A whole admission: the input to run, or None when the call is denied. */
  ghost function AdmitAlone(ag: Agent, w: World, at: nat, sh: Shared, c: Invocation, now: int): Effect<Option<Fields>> {
    var sh := sh.(hooked := Register(sh.hooked, c.tool));
    var ensured := EnsureAlone(ag, w, at, sh, c.session, now);
    var run := DecideRun(ag.setup, w, ensured.next, RequestFor(ag, c), ag.setup.cfg.holdTimeout);
    var st := CountVerdict(ensured.sh.stats.(admitted := ensured.sh.stats.admitted + 1), run.verdict);
    Effect(
      if run.verdict.allowed then Some(Merge(c.input, run.verdict.updatedInput)) else None,
      ensured.sh.(stats := CountRouted(st, run.verdict)),
      ensured.trips + run.trips,
      run.next)
  }
}
