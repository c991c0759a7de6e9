/** The governor as the repository has it: an object whose inventory, attestation records and counters change
    as calls are admitted. Each method is proved to be the step it stands for. */
module Governor {
  import opened Options
  import opened Unicode
  import opened Ordering
  import opened Protocol
  import opened Admission
  import opened Governance
  import C = Canonical

  /** dedupe: appends the names not there yet, one by one. */
  method DedupeLoop(existing: seq<string>, names: seq<string>) returns (out: seq<string>)
    ensures out == Dedupe(existing, names)
  {
    out := existing;
    var i := 0;
    while i < |names|
      invariant 0 <= i <= |names|
      invariant Dedupe(existing, names) == Dedupe(out, names[i..])
    {
      if names[i] != "" && names[i] !in out {
        out := out + [names[i]];
      }
      i := i + 1;
    }
  }

  /** mergeInput: copies the input, then the updated keys over it. */
  method MergeLoop(input: Fields, updated: Option<Fields>) returns (merged: Fields)
    ensures merged == Merge(input, updated)
  {
    merged := map[];
    merged := CopyLoop(merged, input);
    if updated.Some? {
      merged := CopyLoop(merged, updated.value);
    }
  }

  /** The target once all of the source's keys but `keys` are set. */
  ghost function Copied(target: Fields, source: Fields, keys: set<string>): Fields {
    target + (map k | k in source && k !in keys :: source[k])
  }

  lemma CopiedOne(target: Fields, source: Fields, keys: set<string>, k: string)
    requires k in keys && k in source
    ensures Copied(target, source, keys)[k := source[k]] == Copied(target, source, keys - {k})
  {
  }

  lemma CopiedAll(target: Fields, source: Fields)
    ensures Copied(target, source, source.Keys) == target && Copied(target, source, {}) == target + source
  {
    assert (map k | k in source && k !in {} :: source[k]) == source;
  }

  /** maps.Copy: sets every key of `source`, in any order. */
  method CopyLoop(target: Fields, source: Fields) returns (out: Fields)
    ensures out == target + source
  {
    hide Copied;
    CopiedAll(target, source);
    out := target;
    var keys := source.Keys;
    while keys != {}
      invariant keys <= source.Keys
      invariant out == Copied(target, source, keys)
      decreases |keys|
    {
      var k :| k in keys;
      CopiedOne(target, source, keys, k);
      out := out[k := source[k]];
      keys := keys - {k};
    }
  }

  /** slices.Sorted of distinct names. */
  method SortNames(names: seq<string>) returns (sorted: seq<string>)
    requires NoDuplicates(names)
    ensures sorted == Sorted(names)
  {
    var members := new Member[|names|](i requires 0 <= i < |names| => Member(names[i], Utf8(names[i])));
    ghost var before := members[..];
    assert Names(before) == names;
    assert NoDuplicates(before) by {
      forall i, j | 0 <= i < j < |before|
        ensures before[i] != before[j]
      {
        assert before[i].name == names[i] && before[j].name == names[j];
      }
    }
    Sort(members);
    SortFindsListing(ByUtf8, before, members[..]);
    sorted := Names(members[..]);
  }

  class Governor {
    const agent: Agent
    const client: Client
    var hooked: seq<string>
    var attested: map<string, string>
    var attestAttempted: map<string, int>
    var stats: Stats

    ghost predicate Valid()
      reads this
    {
      && NoDuplicates(hooked) && NoDuplicates(agent.id.ungoverned) && NoDuplicates(agent.id.otherServers)
      && client.setup == agent.setup
    }

    ghost function View(): Shared
      reads this
    {
      Shared(hooked, attested, attestAttempted, stats)
    }

    constructor (client: Client, settings: seq<Setting>, hash: seq<Byte> -> string)
      ensures Valid() && View() == Shared([], map[], map[], NO_STATS)
      ensures agent == Agent(client.setup, Build(settings), hash)
    {
      BuildNames(settings);
      agent := Agent(client.setup, Build(settings), hash);
      this.client := client;
      hooked := [];
      attested := map[];
      attestAttempted := map[];
      stats := NO_STATS;
    }

    /** Registers tool names ahead of their first call. */
    method Declare(names: seq<string>)
      requires Valid()
      modifies this`hooked
      ensures Valid() && hooked == Dedupe(old(hooked), names)
      ensures Elements(hooked) == old(Elements(hooked)) + (Elements(names) - {""})
    {
      DedupeElements(hooked, names);
      hooked := DedupeLoop(hooked, names);
    }

    /** Adds a tool name; reports whether it was new. */
    method RegisterTool(name: string) returns (isNew: bool)
      requires Valid()
      modifies this`hooked
      ensures Valid() && hooked == Register(old(hooked), name)
      ensures isNew <==> name !in old(hooked)
    {
      if name in hooked {
        return false;
      }
      RegisterElements(hooked, name);
      hooked := hooked + [name];
      return true;
    }

    method HookedTools() returns (sorted: seq<string>)
      requires Valid()
      ensures Ascending(ByUtf8, sorted) && Elements(sorted) == Elements(hooked)
      ensures sorted == Sorted(hooked)
    {
      ListingSorted(ByUtf8, Elements(hooked));
      sorted := SortNames(hooked);
    }

    /** The attestation's body and its configuration hash. */
    method Attestation() returns (body: Fields, digest: string)
      requires Valid()
      ensures body == AttestBody(agent, hooked) && digest == Digest(agent, hooked)
    {
      var tools := HookedTools();
      var ungoverned := SortNames(agent.id.ungoverned);
      var others := SortNames(agent.id.otherServers);
      var document := DocumentOf(agent.id.framework, agent.id.version, tools, ungoverned, others);
      var bytes := C.CanonicalJSON(document);
      BytesIffSamePosture(agent.id, hooked, agent.id, hooked);
      digest := agent.hash(bytes.value);
      body := AttestWire(agent.id, tools, ungoverned, others, digest);
    }

    /** Whether the session is to attest this hash now; if so the attempt is noted. */
    method ShouldAttest(session: string, digest: string, now: int) returns (due: bool)
      requires Valid()
      modifies this`attestAttempted
      ensures Valid()
      ensures (due, View()) == Consider(old(View()), session, digest, now)
    {
      var current := if session in attested then attested[session] else "";
      if current == digest {
        return false;
      }
      if session in attestAttempted {
        var last := attestAttempted[session];
        if session !in attested && now - last < RETRY_INTERVAL {
          return false;
        }
      }
      attestAttempted := attestAttempted[session := now];
      return true;
    }

    method EnsureAttested(link: Link, session: string, now: int)
      requires Valid()
      modifies this`attestAttempted, this`attested, link
      ensures Valid()
      ensures var e := EnsureAlone(agent, link.world, old(link.cursor), old(View()), session, now);
              View() == e.sh && link.trips == old(link.trips) + e.trips && link.cursor == e.next
    {
      hide RequestRun, AttestBody, Digest;
      var body, digest := Attestation();
      var due := ShouldAttest(session, digest, now);
      if !due {
        return;
      }
      var r := client.Attest(link, body);
      if r.Ok? {
        attested := attested[session := digest];
      }
    }

    /** Judges one call, and returns the input its tool must run, or None when it must not run. */
    method Admit(link: Link, c: Invocation, now: int) returns (r: Option<Fields>)
      requires Valid()
      modifies this, link
      ensures Valid()
      ensures var e := AdmitAlone(agent, link.world, old(link.cursor), old(View()), c, now);
              r == e.result && View() == e.sh && link.trips == old(link.trips) + e.trips && link.cursor == e.next
    {
      hide EnsureAlone, DecideRun;
      var _ := RegisterTool(c.tool);
      EnsureAttested(link, c.session, now);
      stats := stats.(admitted := stats.admitted + 1);
      var verdict := client.Decide(link, RequestFor(agent, c));
      if verdict.allowed {
        stats := stats.(allowed := stats.allowed + 1);
      } else if verdict.AdapterFailed() {
        stats := stats.(unreachable := stats.unreachable + 1);
        if verdict.held {
          stats := stats.(held := stats.held + 1);
        }
      } else if verdict.held {
        stats := stats.(held := stats.held + 1);
      } else {
        stats := stats.(denied := stats.denied + 1);
      }
      if !verdict.allowed {
        return None;
      }
      if verdict.routedTo != "" {
        stats := stats.(routed := stats.routed + 1);
      }
      var merged := MergeLoop(c.input, verdict.updatedInput);
      return Some(merged);
    }

    /** A governed tool or client call: the inner one runs exactly what was admitted, or does not run. */
    method Call(link: Link, inner: Inner, c: Invocation, now: int) returns (ran: bool)
      requires Valid()
      modifies this, link, inner
      ensures Valid()
      ensures var e := AdmitAlone(agent, link.world, old(link.cursor), old(View()), c, now);
              && View() == e.sh && ran == e.result.Some?
              && link.trips == old(link.trips) + e.trips && link.cursor == e.next
              && inner.calls == old(inner.calls) + (if ran then [(c.tool, e.result.value)] else [])
    {
      var admitted := Admit(link, c, now);
      if admitted.None? {
        return false;
      }
      inner.Call(c.tool, admitted.value);
      return true;
    }
  }

  /** The tool or client being governed: what it was called with. */
  class Inner {
    var calls: seq<(string, Fields)>

    method Call(tool: string, input: Fields)
      modifies this
      ensures calls == old(calls) + [(tool, input)]
    {
      calls := calls + [(tool, input)];
    }
  }
}
