/** What Stats() returns while calls are in flight: six loads, one counter after another, with any steps between
    them. */
module Snapshots {
  import opened Options
  import opened Protocol
  import opened Admission
  import opened Guarantees
  import opened Governance
  import opened Interleaving
  import opened Counters
  import opened Overlap
  import opened Serial

  /** The machine can go from `s` to `t`. */
  ghost predicate Leads(ag: Agent, s: State, t: State) {
    exists actions :: Exec(ag, s, actions) == Some(t)
  }

  /** The states in which the six counters are loaded, on the way of some run. */
  ghost predicate Loads(ag: Agent, at: seq<State>) {
    && |at| == 6 && Leads(ag, START, at[0])
    && forall i :: 0 <= i < 5 ==> Leads(ag, at[i], at[i + 1])
  }

  /** The loads in the order Stats() makes them. */
  function SnapshotOf(at: seq<State>): Stats
    requires |at| == 6
  {
    Stats(
      at[0].sh.stats.admitted, at[1].sh.stats.allowed, at[2].sh.stats.denied,
      at[3].sh.stats.held, at[4].sh.stats.unreachable, at[5].sh.stats.routed)
  }

  lemma LeadsMonotone(ag: Agent, s: State, t: State, k: Tally)
    requires Leads(ag, s, t) && IsCounter(k)
    ensures Counter(s.sh.stats, k) <= Counter(t.sh.stats, k)
  {
    hide Exec, Counter;
    var actions :| Exec(ag, s, actions) == Some(t);
    CountersMonotone(ag, s, actions, k);
  }

  lemma {:induction false} LoadsMonotone(ag: Agent, at: seq<State>, i: nat, j: nat, k: Tally)
    requires Loads(ag, at) && i <= j < 6 && IsCounter(k)
    ensures Counter(at[i].sh.stats, k) <= Counter(at[j].sh.stats, k)
    decreases j
  {
    hide Counter, Leads;
    if i < j {
      LoadsMonotone(ag, at, i, j - 1, k);
      assert Leads(ag, at[j - 1], at[j - 1 + 1]);
      LeadsMonotone(ag, at[j - 1], at[j], k);
    }
  }

  /** Every number in a snapshot lies between the counter's value when the snapshot began and when it ended. */
  lemma SnapshotBetween(ag: Agent, at: seq<State>, k: Tally)
    requires Loads(ag, at) && IsCounter(k)
    ensures Counter(at[0].sh.stats, k) <= Counter(SnapshotOf(at), k) <= Counter(at[5].sh.stats, k)
  {
    hide Loads;
    var i := match k case Admissions => 0 case Allows => 1 case Denials => 2 case Holds => 3 case Outages => 4 case _ => 5;
    LoadsMonotone(ag, at, 0, i, k);
    LoadsMonotone(ag, at, i, 5, k);
  }

  /** A snapshot during which no counter moves is exact, and so obeys the conservation law. */
  lemma StillSnapshotExact(ag: Agent, at: seq<State>)
    requires Loads(ag, at) && at[0].sh.stats == at[5].sh.stats
    ensures var st := SnapshotOf(at);
            && st == at[0].sh.stats
            && st.admitted == st.allowed + st.denied + st.unreachable
                              + (st.held - |Members(at[0].calls, FailedHolds)|) + |Members(at[0].calls, Open)|
            && st.routed <= st.allowed && st.held <= st.admitted
  {
    hide Exec, Members;
    SnapshotBetween(ag, at, Admissions);
    SnapshotBetween(ag, at, Allows);
    SnapshotBetween(ag, at, Denials);
    SnapshotBetween(ag, at, Holds);
    SnapshotBetween(ag, at, Outages);
    SnapshotBetween(ag, at, Routings);
    var actions :| Exec(ag, START, actions) == Some(at[0]);
    CounterConservation(ag, actions);
  }

  /** A snapshot shows more calls allowed than admitted only if some call was admitted between the two loads. */
  lemma TornOnlyIfAdmitted(ag: Agent, at: seq<State>)
    requires Loads(ag, at) && SnapshotOf(at).allowed > SnapshotOf(at).admitted
    ensures at[1].sh.stats.admitted > at[0].sh.stats.admitted
  {
    hide Exec, Members;
    assert Leads(ag, at[0], at[0 + 1]);
    var before :| Exec(ag, START, before) == Some(at[0]);
    var between :| Exec(ag, at[0], between) == Some(at[1]);
    ExecConcat(ag, START, before, between);
    CounterConservation(ag, before + between);
    AllowedWithin(ag, before + between);
  }

  /** The true counters never show more calls allowed than admitted. */
  lemma AllowedWithin(ag: Agent, actions: seq<Action>)
    requires Exec(ag, START, actions).Some?
    ensures Exec(ag, START, actions).value.sh.stats.allowed <= Exec(ag, START, actions).value.sh.stats.admitted
  {
    hide Exec;
    var s := Exec(ag, START, actions).value;
    CounterConservation(ag, actions);
    HoldsWithin(s.calls);
    StartCounts();
    CountersAlways(ag, START, actions);
    assert Counter(s.sh.stats, Holds) == |Members(s.calls, Holds)|;
  }

  lemma HoldsWithin(calls: map<nat, Call>)
    ensures |Members(calls, FailedHolds)| <= |Members(calls, Holds)|
  {
    Smaller(Members(calls, FailedHolds), Members(calls, Holds));
  }

  /** A snapshot that does: admitted is loaded at the start, a call is admitted and allowed, then the rest is
      loaded. */
  lemma TornSnapshot(ag: Agent, a: Invocation)
    requires Usable(ag) && Wire(WithHold(RequestFor(ag, a), 0)).Ok? && Digest(ag, Register([], a.tool)) != ""
    ensures exists at :: Loads(ag, at) && SnapshotOf(at).allowed > SnapshotOf(at).admitted
  {
    hide Digest, AttestRun, Exec, Register, DecideSteps, DecisionOf, Step, Wire;
    var t := AllowedRun(ag, a);
    LeadsNowhere(ag, START);
    LeadsNowhere(ag, t);
    var at := [START, t, t, t, t, t];
    assert forall i :: 0 <= i < 5 ==> Leads(ag, at[i], at[i + 1]);
    assert Loads(ag, at);
  }

  lemma LeadsNowhere(ag: Agent, s: State)
    ensures Leads(ag, s, s)
  {
    hide Exec;
    ExecNone(ag, s);
    assert Exec(ag, s, []) == Some(s);
  }

  /** A run from the start at whose end one call is allowed. */
  lemma AllowedRun(ag: Agent, a: Invocation) returns (t: State)
    requires Usable(ag) && Wire(WithHold(RequestFor(ag, a), 0)).Ok? && Digest(ag, Register([], a.tool)) != ""
    ensures Leads(ag, START, t) && t.sh.stats.allowed == 1
  {
    hide Digest, AttestRun, Exec, Register, DecideSteps, DecideRun, Wire, CountRouted;
    Enters(ag, START, 1, a);
    DownFails(ag, Register([], a.tool));
    var attested := Entering(1, a) + [AttestReturns(1, DOWN)];
    ExecSnoc(ag, START, Entering(1, a), AttestReturns(1, DOWN));
    var s := Exec(ag, START, attested).value;
    var v := DecisionOf(ag, a, AllowingWorld()).verdict;
    AllowingWorldAllows(ag.setup, RequestFor(ag, a), ag.setup.cfg.holdTimeout);
    DecidesAlone(ag, s, 1, AllowingWorld());
    ExecConcat(ag, START, attested, DecideSteps(1, AllowingWorld(), v));
    t := Exec(ag, START, attested + DecideSteps(1, AllowingWorld(), v)).value;
    RoutingKeepsAllowed(CountVerdict(s.sh.stats.(admitted := s.sh.stats.admitted + 1), v), v);
  }

  lemma RoutingKeepsAllowed(st: Stats, v: Verdict)
    ensures CountRouted(st, v).allowed == st.allowed
  {
  }
}
