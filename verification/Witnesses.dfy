/** Runs that reach the outcomes the theorems speak of. */
module Witnesses {
  import opened Wrappers
  import opened Models
  import opened Digests
  import opened Replay
  import opened Probes
  import opened Runner
  import opened RunVerdict
  import T = Transitions
  import L = Lifecycle
  import opened Receipts
  import RoundTrip
  import Endings
  import Overlap

  // ---------- verdicts ----------

  function FlatBars(): seq<Bar> {
    [Bar(0, "a", 1.0, 1.0, 1.0, 1.0), Bar(1, "b", 1.0, 1.0, 1.0, 1.0)]
  }

  /** Two flat bars, a budget of no trades, and one signal for each role. */
  function Sample(baseline: real, candidate: real): Input {
    Input([Scenario("flat", FlatBars(), Signals([baseline, 0.0]), Signals([candidate, 0.0]))],
          [ProbeSpec("budget", TradeBudget(0.0), true)],
          Package(Some(1.0), false), Package(Some(1.0), false), Some(0.0), Some(0.0), "next_bar_open",
          Identity(Unset, Unset, Unset, "adapter", Unset), Null, Null, Null, Null,
          true, Chain(Chained, None), None, map[])
  }

  function SampleTrace(signal: real): Trace {
    Trace("flat", 2, if signal == 0.0 then 0 else 1,
          [Point(0, "a", 1.0, 10000.0, 10000.0, 0.0, 0.0), Point(1, "b", 1.0, 10000.0, 10000.0, 0.0, signal)])
  }

  const FREE: Settings := Settings(1.0, 0.0, 0.0)

  function Opened(): State {
    State(START_NAV, START_NAV, 0.0, 0.0, 0, 1.0)
  }

  function Ordered(signal: real): State {
    State(START_NAV, START_NAV, 0.0, signal, 0, 1.0)
  }

  function Filled(signal: real): State {
    State(START_NAV, START_NAV, signal, 0.0, if signal == 0.0 then 0 else 1, 1.0)
  }

  lemma {:induction false} FirstBar(signal: real)
    requires signal == 0.0 || signal == 1.0
    ensures StepBar(FREE, 0, FlatBars()[0], signal, Opened()) == Ok(Ordered(signal))
    ensures PointOf(FlatBars()[0], Ordered(signal)) == SampleTrace(signal).points[0]
  {
    hide Fill;
  }

  lemma {:induction false} SecondFill(signal: real)
    requires signal == 0.0 || signal == 1.0
    ensures Fill(FREE, FlatBars()[1], Ordered(signal)) == Ok(Filled(signal).(pending := signal))
  {
    hide Grown, GapReturn, BarReturn, ApplyTradeCosts;
    NothingMoves(signal);
    var bar, st := FlatBars()[1], Ordered(signal);
    assert Grown(st.nav, st.position, GapReturn(st.previousClose, bar)) == START_NAV;
    assert Grown(START_NAV, st.pending, BarReturn(bar)) == START_NAV;
  }

  lemma {:induction false} NothingMoves(signal: real)
    ensures GapReturn(1.0, FlatBars()[1]) == 0.0 && BarReturn(FlatBars()[1]) == 0.0
    ensures forall position: real :: Grown(START_NAV, position, 0.0) == START_NAV
    ensures ApplyTradeCosts(START_NAV, 0.0, signal, 0.0, 0.0) == START_NAV
  {
  }

  lemma {:induction false} SecondBar(signal: real)
    requires signal == 0.0 || signal == 1.0
    ensures StepBar(FREE, 1, FlatBars()[1], 0.0, Ordered(signal)) == Ok(Filled(signal))
    ensures PointOf(FlatBars()[1], Filled(signal)) == SampleTrace(signal).points[1]
  {
    hide Fill;
    SecondFill(signal);
  }

  lemma {:induction false} SampleReplays(id: string, signal: real)
    requires signal == 0.0 || signal == 1.0
    ensures ReplayOf(id, FlatBars(), Config(Some(1.0), Some(0.0), Some(0.0), "next_bar_open", false), [signal, 0.0])
         == Ok(SampleTrace(signal).(scenarioId := id))
  {
    hide StepBar, PointOf;
    var bars, signals, points := FlatBars(), [signal, 0.0], SampleTrace(signal).points;
    FirstBar(signal);
    SecondBar(signal);
    assert Run(FREE, bars, signals, 0) == Ok(Progress(Opened(), []));
    assert [] + [points[0]] == [points[0]];
    assert Run(FREE, bars, signals, 1) == Ok(Progress(Ordered(signal), [] + [points[0]]));
    assert Run(FREE, bars, signals, 2) == Ok(Progress(Filled(signal), [points[0]] + [points[1]]));
    assert [points[0]] + [points[1]] == points;
  }

  lemma {:induction false} SampleDelivered(baseline: real, candidate: real)
    requires (baseline == 0.0 || baseline == 1.0) && (candidate == 0.0 || candidate == 1.0)
    ensures ValidInput(Sample(baseline, candidate)) && Delivered(Sample(baseline, candidate))
    ensures Replays(Sample(baseline, candidate), 1) == Ok([Pair(SampleTrace(baseline), SampleTrace(candidate))])
  {
    hide ReplayOf;
    var input := Sample(baseline, candidate);
    assert input.probes[0] in input.probes && input.probes[0].block;
    SampleReplays("flat", baseline);
    SampleReplays("flat", candidate);
    assert Replays(input, 0) == Ok([]);
    assert [] + [Pair(SampleTrace(baseline), SampleTrace(candidate))] ==
      [Pair(SampleTrace(baseline), SampleTrace(candidate))];
  }

  lemma {:induction false} SampleMeaning(signal: real)
    ensures Meaning(TradeBudget(0.0), SampleTrace(signal)) <==> signal == 0.0
  {
    var points := SampleTrace(signal).points;
    assert points[..1] == [points[0]];
    assert ChangesFrom(points[..1], 0) == 0;
  }

  /** Every verdict of the end-to-end theorem occurs: PASS, WITHHELD and a rejected baseline. */
  lemma {:induction false} VerdictsOccur()
    ensures ValidInput(Sample(0.0, 0.0)) && RunOf(Sample(0.0, 0.0)).envelope.status == Pass
    ensures ValidInput(Sample(0.0, 1.0)) && RunOf(Sample(0.0, 1.0)).envelope.status == Withheld
    ensures ValidInput(Sample(1.0, 0.0)) && RunOf(Sample(1.0, 0.0)).envelope.status == Reject
  {
    hide RunOf, Delivered, Meaning, ValidInput, SampleTrace, Replays;
    SampleMeaning(0.0);
    SampleMeaning(1.0);
    forall b: real, c: real | (b == 0.0 || b == 1.0) && (c == 0.0 || c == 1.0)
      ensures ValidInput(Sample(b, c)) && Delivered(Sample(b, c))
      ensures Replays(Sample(b, c), 1) == Ok([Pair(SampleTrace(b), SampleTrace(c))])
      ensures Meets(Sample(b, c), Baselines([Pair(SampleTrace(b), SampleTrace(c))])) <==> b == 0.0
      ensures Meets(Sample(b, c), Candidates([Pair(SampleTrace(b), SampleTrace(c))])) <==> c == 0.0
    {
      SampleDelivered(b, c);
      OneScenario(b, c, [SampleTrace(b)], b);
      OneScenario(b, c, [SampleTrace(c)], c);
      assert Baselines([Pair(SampleTrace(b), SampleTrace(c))]) == [SampleTrace(b)];
      assert Candidates([Pair(SampleTrace(b), SampleTrace(c))]) == [SampleTrace(c)];
    }
    DeliveredVerdict(Sample(0.0, 0.0));
    DeliveredVerdict(Sample(0.0, 1.0));
    BaselineBreachRejects(Sample(1.0, 0.0));
  }

  lemma {:induction false} OneScenario(b: real, c: real, traces: seq<Trace>, signal: real)
    requires traces == [SampleTrace(signal)]
    ensures Meets(Sample(b, c), traces) <==> Meaning(TradeBudget(0.0), SampleTrace(signal))
  {
    hide Meaning, SampleTrace;
    var input := Sample(b, c);
    assert input.probes[0].block && input.probes[0].check == TradeBudget(0.0);
    if Meets(input, traces) { assert Meaning(input.probes[0].check, traces[0]); }
    if Meaning(TradeBudget(0.0), SampleTrace(signal)) {
      forall i: nat, k: nat | i < |traces| && k < |input.probes| && input.probes[k].block
        ensures Meaning(input.probes[k].check, traces[i])
      {
        assert i == 0 && k == 0;
      }
    }
  }

  // ---------- a receipt that fails its own check ----------

  /** Two flat scenarios and two retry probes, both aimed at the first one. */
  function Twice(): Input {
    Sample(0.0, 0.0).(
      scenarios := [Scenario("flat", FlatBars(), Signals([0.0, 0.0]), Signals([0.0, 0.0])),
                    Scenario("other", FlatBars(), Signals([0.0, 0.0]), Signals([0.0, 0.0]))],
      probes := [ProbeSpec("five", BlindRetry("flat", 0, 5.0), true),
                 ProbeSpec("three", BlindRetry("flat", 0, 3.0), true)])
  }

  function Still(id: string): Pair {
    Pair(SampleTrace(0.0).(scenarioId := id), SampleTrace(0.0).(scenarioId := id))
  }

  lemma {:induction false} TwiceValid()
    ensures ValidInput(Twice())
  {
    var input := Twice();
    assert input.probes[0] in input.probes && input.probes[0].block;
    assert |"flat"| != |"other"| && |"five"| != |"three"|;
  }

  lemma {:induction false} TwiceDelivered()
    ensures ValidInput(Twice()) && Delivered(Twice()) && Replays(Twice(), 2) == Ok([Still("flat"), Still("other")])
  {
    hide ReplayOf, Replays, Still;
    TwiceValid();
    TwiceReplays();
  }

  lemma {:induction false} TwiceReplays()
    requires forall s :: s in Twice().scenarios ==> ValidBars(s.bars)
    ensures Replays(Twice(), 2) == Ok([Still("flat"), Still("other")])
  {
    hide ReplayOf, ValidBars, SampleTrace;
    var input := Twice();
    SampleReplays("flat", 0.0);
    SampleReplays("other", 0.0);
    assert Replays(input, 0) == Ok([]);
    assert [] + [Still("flat")] == [Still("flat")];
    assert Replays(input, 1) == Ok([Still("flat")]);
    assert [Still("flat")] + [Still("other")] == [Still("flat"), Still("other")];
  }

  lemma {:induction false} StillMeets(id: string, limit: real)
    requires limit >= 0.0
    ensures Meaning(BlindRetry("flat", 0, limit), SampleTrace(0.0).(scenarioId := id))
  {
    var points := SampleTrace(0.0).points;
    assert points[..1] == [points[0]];
    assert ChangesFrom(points[..1], 0) == 0;
  }

  lemma {:induction false} TwiceMeets(traces: seq<Trace>)
    requires forall i :: 0 <= i < |traces| ==> traces[i] == SampleTrace(0.0).(scenarioId := traces[i].scenarioId)
    ensures Meets(Twice(), traces)
  {
    hide Meaning, SampleTrace;
    forall i: nat, k: nat | i < |traces| && k < |Twice().probes| && Twice().probes[k].block
      ensures Meaning(Twice().probes[k].check, traces[i])
    {
      StillMeets(traces[i].scenarioId, 5.0);
      StillMeets(traces[i].scenarioId, 3.0);
    }
  }

  /** A run that passes and whose receipt is refused by its own binding check. */
  lemma {:induction false} FailingReceiptOccurs(s: Setting)
    requires s.identity == Twice().identity
    ensures ValidInput(Twice()) && RunOf(Twice()).envelope.status == Pass
    ensures var run := RunOf(Twice());
      IssueReceipt(run.envelope, run.proofs, run.coverage, s).Some? &&
        !SelfConsistent(IssueReceipt(run.envelope, run.proofs, run.coverage, s).value)
  {
    hide RunOf, Delivered, Meets, ValidInput, Replays, SelfConsistent, IssueReceipt, BindingError, SampleTrace;
    TwiceDelivered();
    var pairs := [Still("flat"), Still("other")];
    TwiceMeets(Baselines(pairs));
    TwiceMeets(Candidates(pairs));
    DeliveredVerdict(Twice());
    assert |"flat"| != |"other"|;
    RoundTrip.OutOfScopeReceiptFails(Twice(), s, 1, 0, 1);
  }

  // ---------- a release ----------

  function Fresh(): T.Release {
    L.Created("release", "strategy", "version", Null, "author", None, None)
  }

  function PassingRuns(): L.Runs {
    map["run" := L.Run(L.RunPass, Some("PASS"), Some("receipt"), Some("report"))]
  }

  function ByReviewer(nonce: string): L.Event {
    L.Approve(L.Principal("reviewer", true, false), false, nonce, "", PassingRuns())
  }

  function Journey(): seq<L.Event> {
    [L.BindRun("run", PassingRuns()), L.ImportSimulation(Null),
     L.BindPolicy(T.Policy(true, true, true, false, false, Null)),
     ByReviewer("one"), L.ExecuteDemo(false, false, false, L.OrderPlaced(Null), PassingRuns())]
  }

  lemma {:induction false} JourneyStep(start: T.Release, events: seq<L.Event>, k: nat)
    requires k < |events|
    ensures L.After(start, events[..k + 1]) == L.Step(L.After(start, events[..k]), events[k]).0
  {
    assert events[..k + 1][..k] == events[..k];
  }

  function WithRun(): T.Release { T.WithTier(L.Bound(Fresh(), "run", PassingRuns()["run"])) }
  function WithSimulation(): T.Release { T.WithTier(L.Simulated(WithRun(), Null)) }
  function WithPolicy(): T.Release { T.WithTier(L.Governed(WithSimulation(), Journey()[2].bound)) }

  lemma {:induction false} RunBinds()
    ensures L.Step(Fresh(), Journey()[0]).0 == WithRun() && WithRun().state == T.RedlinePassed
  {
    hide T.Transition, T.TierOf;
    var u := L.Bound(Fresh(), "run", PassingRuns()["run"]);
    L.NothingAsked(u);
    Moves(Fresh(), u);
  }

  lemma {:induction false} SimulationArrives()
    ensures L.Step(WithRun(), Journey()[1]).0 == WithSimulation() && WithSimulation().state == T.EvidenceCollecting
  {
    hide T.Transition, T.TierOf;
    var u := L.Simulated(WithRun(), Null);
    L.NothingAsked(u);
    Moves(WithRun(), u);
  }

  lemma {:induction false} PolicyArrives()
    ensures L.Step(WithSimulation(), Journey()[2]).0 == WithPolicy() && WithPolicy().state == T.ReviewRequired
  {
    hide T.Transition, T.TierOf, L.PolicyDigest, L.SimulationDigest;
    var u := L.Governed(WithSimulation(), Journey()[2].bound);
    assert u.state == T.ReviewRequired;
    T.MissingForExactly(u, T.ReviewRequired);
    Moves(WithSimulation(), u);
  }

  lemma {:induction false} EvidenceGathers()
    ensures var r := L.After(Fresh(), Journey()[..3]);
      && L.Invariant(r) && r.state == T.ReviewRequired && r.run == Some("run") && r.createdBy == "author"
      && r.receiptHash == Some("receipt") && r.policy.Some? && !r.policy.value.breach && r.simulation.Some?
  {
    hide L.Step, T.TierOf, L.PolicyDigest, L.SimulationDigest, L.Invariant, L.After;
    var events := Journey();
    L.CreatedInvariant("release", "strategy", "version", Null, "author", None, None);
    L.EveryRunKeeps(Fresh(), events[..3]);
    NothingYet(events);
    JourneyStep(Fresh(), events, 0);
    JourneyStep(Fresh(), events, 1);
    JourneyStep(Fresh(), events, 2);
    RunBinds();
    SimulationArrives();
    PolicyArrives();
  }

  lemma {:induction false} NothingYet(events: seq<L.Event>)
    ensures L.After(Fresh(), events[..0]) == Fresh()
  {
  }

  lemma {:induction false} Moves(r: T.Release, u: T.Release)
    requires !T.Terminal(r.state) && u.state in T.Successors(r.state) && T.MissingFor(u, u.state) == []
    ensures T.Transition(r, u) == Some(T.WithTier(u))
  {
  }

  /** A release can become ready, at tier L1, and an approved release of the kind the interleaving
      results speak of exists. */
  lemma {:induction false} ReadyOccurs()
    ensures L.After(Fresh(), Journey()).state == T.ReleaseReady && L.After(Fresh(), Journey()).tier == T.L1
    ensures Overlap.Overlappable(L.After(Fresh(), Journey()[..4]), ByReviewer("two"))
    ensures exists nonce: string :: Endings.Executable(L.After(Fresh(), Journey()[..4]), nonce, PassingRuns())
  {
    hide L.Step, L.Invariant, T.Fingerprint, L.After, T.TierOf;
    var events := Journey();
    EvidenceGathers();
    var r3 := L.After(Fresh(), events[..3]);
    var r4 := L.After(Fresh(), events[..4]);
    JourneyStep(Fresh(), events, 3);
    JourneyStep(Fresh(), events, 4);
    assert events[..5] == events;
    L.ApprovedExactly(r3, events[3]);
    L.StepKeeps(r3, events[3]);
    assert L.Invariant(r4) && r4.state == T.Approved;
    L.ApprovedExactly(r4, ByReviewer("two"));
    Overlap.ReapprovedFacts(r4, ByReviewer("two"));
    assert Endings.Executable(r4, r4.approval.value.nonce.value, PassingRuns());
    L.ReadyExactly(r4, events[4]);
    L.StepKeeps(r4, events[4]);
    KeepsSimulation(r4, events[4]);
    L.TierMeaning(L.After(Fresh(), events));
  }

  lemma {:induction false} KeepsSimulation(r: T.Release, e: L.Event)
    requires e.ExecuteDemo?
    ensures L.Step(r, e).0.simulation == r.simulation
  {
    hide T.Fingerprint, T.TierOf, T.Transition, L.ExecutionBlock;
    forall r1: T.Release, u: T.Release {:trigger T.Transition(r1, u)} | T.Transition(r1, u).Some?
      ensures T.Transition(r1, u).value.simulation == u.simulation
    {
      L.TransitionShape(r1, u);
    }
  }
}
