/** The governor's counters over every interleaving: each is the number of calls that have counted towards
    it, so what is admitted is accounted for. */
module Counters {
  import opened Governance
  import opened Interleaving

  /** What a call can count towards. */
  datatype Tally =
    | Admissions | Allows | Denials | Holds | Outages | Routings  // the six counters
    | Open          // admitted, no outcome counted
    | FailedHolds    // counted as held although its second phase failed

  predicate OutcomeCounted(p: Phase) {
    p.Counted? || p.Returned? || p.Ran?
  }

  predicate Counts(k: Tally, c: Call) {
    var p := c.phase;
    match k
    case Admissions => p.Asking? || p.Judged? || p.HalfCounted? || OutcomeCounted(p)
    case Open => p.Asking? || p.Judged?
    case Allows => OutcomeCounted(p) && p.verdict.allowed
    case Outages => p.HalfCounted? || (OutcomeCounted(p) && !p.verdict.allowed && p.verdict.err.Some?)
    case Holds => OutcomeCounted(p) && !p.verdict.allowed && p.verdict.held
    case FailedHolds => OutcomeCounted(p) && !p.verdict.allowed && p.verdict.held && p.verdict.err.Some?
    case Denials => OutcomeCounted(p) && p.verdict.PolicyDenied()
    case Routings => (p.Returned? || p.Ran?) && p.verdict.allowed && p.verdict.routedTo != ""
  }

  function Members(calls: map<nat, Call>, k: Tally): set<nat> {
    set id | id in calls && Counts(k, calls[id])
  }

  function Counter(st: Stats, k: Tally): nat {
    match k
    case Admissions => st.admitted
    case Allows => st.allowed
    case Denials => st.denied
    case Holds => st.held
    case Outages => st.unreachable
    case Routings => st.routed
    case _ => 0
  }

  predicate IsCounter(k: Tally) {
    k != Open && k != FailedHolds
  }

  /** Every counter is the number of calls that have counted towards it. */
  ghost predicate CountersTrue(s: State) {
    && (forall k: Tally :: IsCounter(k) ==> Counter(s.sh.stats, k) == |Members(s.calls, k)|)
    && (forall id :: id in s.calls ==> HalfCountedFailed(s.calls[id]))
  }

  function One(b: bool): nat {
    if b then 1 else 0
  }

  lemma MembersAfter(calls: map<nat, Call>, id: nat, c: Call, k: Tally)
    ensures |Members(calls[id := c], k)|
         == |Members(calls, k)| - One(id in calls && Counts(k, calls[id])) + One(Counts(k, c))
  {
    MoveOne(Members(calls, k), Members(calls[id := c], k), id);
  }

  lemma MoveOne(before: set<nat>, after: set<nat>, id: nat)
    requires before - {id} == after - {id}
    ensures |after| == |before| - One(id in before) + One(id in after)
  {
    assert |before| == |before - {id}| + One(id in before);
    assert |after| == |after - {id}| + One(id in after);
  }

  /** A half-counted call is an adapter failure of a held call. */
  predicate HalfCountedFailed(c: Call) {
    c.phase.HalfCounted? ==> !c.phase.verdict.allowed && c.phase.verdict.held && c.phase.verdict.err.Some?
  }

  /** The step `a` moves at most its own call, and counter `k` exactly as that call's standing changes. */
  ghost predicate CountsStep(ag: Agent, s: State, a: Action, k: Tally)
    requires Step(ag, s, a).Some? && !a.Tick? && !a.Declaring?
  {
    var t := Step(ag, s, a).value;
    && a.id in t.calls && t.calls == s.calls[a.id := t.calls[a.id]]
    && Counter(t.sh.stats, k)
       == Counter(s.sh.stats, k) - One(a.id in s.calls && Counts(k, s.calls[a.id])) + One(Counts(k, t.calls[a.id]))
    && HalfCountedFailed(t.calls[a.id])
  }

  /** The steps that settle an outcome. */
  predicate Settles(a: Action) {
    a.CountOutcome? || a.CountHeld? || a.Return?
  }

  lemma SettlingCounts(ag: Agent, s: State, a: Action, k: Tally)
    requires Step(ag, s, a).Some? && IsCounter(k) && Settles(a)
    requires HalfCountedFailed(s.calls[a.id])
    ensures CountsStep(ag, s, a, k)
  {
    hide Digest, DecisionOf, AttestRun, Members, Merge, Dedupe, Consider, StepConsidering, StepAttestReturns,
      StepRecording, StepDeciding, StepRun;
  }

  /** The steps that attest, which no counter follows. */
  predicate Attests(a: Action) {
    a.Considering? || a.AttestReturns? || a.Recording?
  }

  lemma AttestingCounts(ag: Agent, s: State, a: Action, k: Tally)
    requires Step(ag, s, a).Some? && IsCounter(k) && Attests(a)
    ensures CountsStep(ag, s, a, k)
  {
    hide Digest, DecisionOf, AttestRun, Members, Merge, Dedupe, StepCountOutcome, StepReturn, StepDeciding, StepRun;
  }

  lemma OtherStepsCount(ag: Agent, s: State, a: Action, k: Tally)
    requires Step(ag, s, a).Some? && IsCounter(k) && !a.Tick? && !a.Declaring? && !Settles(a) && !Attests(a)
    ensures CountsStep(ag, s, a, k)
  {
    hide Digest, DecisionOf, AttestRun, Members, Merge, Dedupe, Register, StepCountOutcome, StepReturn,
      StepConsidering, StepAttestReturns, StepRecording;
  }

  lemma EveryStepCounts(ag: Agent, s: State, a: Action, k: Tally)
    requires CountersTrue(s) && Step(ag, s, a).Some? && IsCounter(k) && !a.Tick? && !a.Declaring?
    ensures CountsStep(ag, s, a, k)
    ensures Counter(Step(ag, s, a).value.sh.stats, k) == |Members(Step(ag, s, a).value.calls, k)|
  {
    if Settles(a) {
      assert a.id in s.calls;
      SettlingCounts(ag, s, a, k);
    } else if Attests(a) {
      AttestingCounts(ag, s, a, k);
    } else {
      OtherStepsCount(ag, s, a, k);
    }
    hide Step, Members, Counts, Counter, HalfCountedFailed;
    MembersAfter(s.calls, a.id, Step(ag, s, a).value.calls[a.id], k);
  }

  lemma CountersKept(ag: Agent, s: State, a: Action)
    requires CountersTrue(s) && Step(ag, s, a).Some?
    ensures CountersTrue(Step(ag, s, a).value)
  {
    var t := Step(ag, s, a).value;
    if a.Tick? || a.Declaring? {
      assert t.calls == s.calls && t.sh.stats == s.sh.stats;
    } else {
      hide Step, Members, Counts, Counter, HalfCountedFailed;
      forall k: Tally | IsCounter(k)
        ensures CountsStep(ag, s, a, k) && Counter(t.sh.stats, k) == |Members(t.calls, k)|
      {
        EveryStepCounts(ag, s, a, k);
      }
      assert CountsStep(ag, s, a, Admissions);
    }
  }

  lemma {:induction false} CountersAlways(ag: Agent, s: State, actions: seq<Action>)
    requires CountersTrue(s) && Exec(ag, s, actions).Some?
    ensures CountersTrue(Exec(ag, s, actions).value)
    decreases |actions|
  {
    hide Step, CountersTrue;
    if actions != [] {
      CountersKept(ag, s, actions[0]);
      CountersAlways(ag, Step(ag, s, actions[0]).value, actions[1..]);
    }
  }

  lemma StartCounts()
    ensures CountersTrue(START)
  {
    forall k: Tally
      ensures Members(START.calls, k) == {}
    {
    }
  }

  /** Conservation over every interleaving: calls admitted are those allowed, denied, unreachable, held without
      an error, and those with no outcome counted yet; routed calls were allowed and held ones admitted. */
  lemma CounterConservation(ag: Agent, actions: seq<Action>)
    requires Exec(ag, START, actions).Some?
    ensures var s := Exec(ag, START, actions).value;
            var st := s.sh.stats;
            && st.admitted == st.allowed + st.denied + st.unreachable
                              + (st.held - |Members(s.calls, FailedHolds)|) + |Members(s.calls, Open)|
            && st.routed <= st.allowed && st.held <= st.admitted
  {
    hide Exec;
    StartCounts();
    CountersAlways(ag, START, actions);
    Partition(Exec(ag, START, actions).value.calls);
  }

  /** The calls admitted fall apart by what happened to them. */
  lemma Partition(calls: map<nat, Call>)
    requires forall id :: id in calls ==> HalfCountedFailed(calls[id])
    ensures |Members(calls, Admissions)|
         == |Members(calls, Allows)| + |Members(calls, Denials)| + |Members(calls, Outages)|
            + (|Members(calls, Holds)| - |Members(calls, FailedHolds)|) + |Members(calls, Open)|
    ensures |Members(calls, Routings)| <= |Members(calls, Allows)|
    ensures |Members(calls, Holds)| <= |Members(calls, Admissions)|
  {
    hide Members, HalfCountedFailed;
    var failed, held := Members(calls, FailedHolds), Members(calls, Holds);
    PartitionSets(calls);
    Apart(failed, held - failed);
    assert failed + (held - failed) == held;
    SumOfFive(Members(calls, Allows), Members(calls, Denials), Members(calls, Outages), held - failed, Members(calls, Open));
    Smaller(Members(calls, Routings), Members(calls, Allows));
    Smaller(held, Members(calls, Admissions));
  }

  lemma PartitionSets(calls: map<nat, Call>)
    requires forall id :: id in calls ==> HalfCountedFailed(calls[id])
    ensures var held := Members(calls, Holds) - Members(calls, FailedHolds);
            Members(calls, Admissions)
            == Members(calls, Allows) + Members(calls, Denials) + Members(calls, Outages) + held + Members(calls, Open)
    ensures Members(calls, Allows) !! Members(calls, Denials) !! Members(calls, Outages)
            !! (Members(calls, Holds) - Members(calls, FailedHolds)) !! Members(calls, Open)
    ensures Members(calls, FailedHolds) <= Members(calls, Holds) <= Members(calls, Admissions)
    ensures Members(calls, Routings) <= Members(calls, Allows)
  {
  }

  lemma SumOfFive(a: set<nat>, b: set<nat>, c: set<nat>, d: set<nat>, e: set<nat>)
    requires a !! b !! c !! d !! e
    ensures |a + b + c + d + e| == |a| + |b| + |c| + |d| + |e|
  {
    Apart(a, b);
    Apart(a + b, c);
    Apart(a + b + c, d);
    Apart(a + b + c + d, e);
  }

  lemma Apart(a: set<nat>, b: set<nat>)
    requires a !! b
    ensures |a + b| == |a| + |b|
  {
  }

  lemma Smaller(a: set<nat>, b: set<nat>)
    requires a <= b
    ensures |a| <= |b|
  {
    assert b == a + (b - a);
    Apart(a, b - a);
  }

  /** Once every call of a run has returned the counters are exact: each call was admitted once, and is counted as
      allowed, denied or unreachable, or as held without an error. */
  lemma Quiescent(ag: Agent, actions: seq<Action>)
    requires Exec(ag, START, actions).Some?
    requires var s := Exec(ag, START, actions).value;
             forall id :: id in s.calls ==> s.calls[id].phase.Returned? || s.calls[id].phase.Ran?
    ensures var s := Exec(ag, START, actions).value;
            var st := s.sh.stats;
            && st.admitted == |s.calls|
            && st.admitted == st.allowed + st.denied + st.unreachable + (st.held - |Members(s.calls, FailedHolds)|)
  {
    hide Exec;
    var s := Exec(ag, START, actions).value;
    CounterConservation(ag, actions);
    StartCounts();
    CountersAlways(ag, START, actions);
    assert Members(s.calls, Open) == {} && Members(s.calls, Admissions) == s.calls.Keys;
    assert Counter(s.sh.stats, Admissions) == |Members(s.calls, Admissions)|;
  }

  /** No counter ever goes down. */
  lemma {:induction false} CountersMonotone(ag: Agent, s: State, actions: seq<Action>, k: Tally)
    requires IsCounter(k) && Exec(ag, s, actions).Some?
    ensures Counter(s.sh.stats, k) <= Counter(Exec(ag, s, actions).value.sh.stats, k)
    decreases |actions|
  {
    if actions != [] {
      CounterStep(ag, s, actions[0], k);
      CountersMonotone(ag, Step(ag, s, actions[0]).value, actions[1..], k);
    }
  }

  lemma CounterStep(ag: Agent, s: State, a: Action, k: Tally)
    requires IsCounter(k) && Step(ag, s, a).Some?
    ensures Counter(s.sh.stats, k) <= Counter(Step(ag, s, a).value.sh.stats, k)
  {
    hide Digest, DecisionOf, AttestRun, Merge, Dedupe;
  }
}
