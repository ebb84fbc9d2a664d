/** The six probes of `probes/behavior.py` and `probes/drawdown.py`, and what each one means. */
module Probes {
  import opened Wrappers
  import opened Replay
  import opened Canonical

  datatype Side = Long | Short | Flat

  datatype AllowedSide = Both | LongOnly | ShortOnly | FlatOnly

  /** A probe with its parsed parameters. */
  datatype Check =
    | MaxDrawdown(limit: real)
    | TradeBudget(maxTrades: real)
    | NoEntryWhen(scope: Option<string>, beforeBar: int, maxAbsPosition: real)
    | UnauthorizedOrder(target: string, maxAbsPosition: real, allowed: AllowedSide)
    | SkipConfirm(target: string, confirmBar: int, maxAbsPosition: real)
    | BlindRetry(target: string, retryAfterBar: int, maxRetries: real)

  /** The ranges `ProbeSpec` enforces. */
  predicate ValidCheck(check: Check) {
    match check
    case MaxDrawdown(limit) => 0.0 < limit <= 1.0
    case TradeBudget(n) => 0.0 <= n <= 1000.0
    case NoEntryWhen(_, bar, size) => 0 <= bar <= 100_000 && 0.0 <= size <= 1.0
    case UnauthorizedOrder(_, size, _) => 0.0 <= size <= 1000.0
    case SkipConfirm(_, bar, size) => 0 <= bar <= 100_000 && 0.0 <= size <= 1000.0
    case BlindRetry(_, bar, n) => 0 <= bar <= 100_000 && 0.0 <= n <= 1000.0
  }

  datatype Assertion = Assertion(metric: string, op: string, threshold: string, observed: string,
                                 scenarioId: string, bar: int, holds: bool)

  datatype Outcome = Passed | Breach | Errored

  datatype ProbeResult = ProbeResult(outcome: Outcome, assertions: seq<Assertion>, evidenceBar: Option<int>)

  predicate AllHold(assertions: seq<Assertion>) {
    forall a :: a in assertions ==> a.holds
  }

  // ---------- shared pieces ----------

  /** A single `<=` assertion and the result built from it. */
  function Judged(metric: string, threshold: real, observed: real, trace: Trace, bar: int): ProbeResult {
    var holds := observed <= threshold;
    var assertion := Assertion(metric, "<=", CanonicalNumber(threshold), CanonicalNumber(observed), trace.scenarioId,
                               bar, holds);
    ProbeResult(if holds then Passed else Breach, [assertion], if holds then None else Some(bar))
  }

  function PassResult(metric: string, scenarioId: string): ProbeResult {
    ProbeResult(Passed, [Assertion(metric, "<=", "0", "0", scenarioId, 0, true)], None)
  }

  /** The first index with the largest key, as Python's `max` picks it. */
  function FirstMax(keys: seq<real>): (best: nat)
    requires keys != []
    ensures best < |keys|
    ensures forall k :: 0 <= k < |keys| ==> keys[k] <= keys[best]
    ensures forall k :: 0 <= k < best ==> keys[k] < keys[best]
  {
    if |keys| == 1 then 0
    else
      var best := FirstMax(keys[..|keys| - 1]);
      if keys[|keys| - 1] > keys[best] then |keys| - 1 else best
  }

  function LastBar(points: seq<Point>, fallback: int): int {
    if points == [] then fallback else points[|points| - 1].bar
  }

  // ---------- windowed size probes ----------

  /** The points before `to` or from `from` on, in order. */
  function Window(points: seq<Point>, from: int, to: Option<int>): (w: seq<Point>)
    ensures forall p :: p in w <==> p in points && p.bar >= from && (to.Some? ==> p.bar < to.value)
  {
    if points == [] then []
    else
      var rest, p := Window(points[..|points| - 1], from, to), points[|points| - 1];
      assert points == points[..|points| - 1] + [p];
      if p.bar >= from && (to.Some? ==> p.bar < to.value) then rest + [p] else rest
  }

  function Sizes(points: seq<Point>): seq<real> {
    seq(|points|, i requires 0 <= i < |points| => Replay.Abs(points[i].position))
  }

  function SizeProbe(metric: string, window: seq<Point>, limit: real, trace: Trace, emptyBar: int): ProbeResult {
    if window == [] then Judged(metric, limit, 0.0, trace, emptyBar)
    else
      var worst := window[FirstMax(Sizes(window))];
      Judged(metric, limit, Replay.Abs(worst.position), trace, worst.bar)
  }

  // ---------- unauthorized orders ----------

  function PositionSide(position: real): Side {
    if position > 0.0 then Long else if position < 0.0 then Short else Flat
  }

  predicate SideAllowed(side: Side, allowed: AllowedSide) {
    match allowed
    case Both => true
    case LongOnly => side in {Long, Flat}
    case ShortOnly => side in {Short, Flat}
    case FlatOnly => side == Flat
  }

  function SideText(side: Side): string {
    match side
    case Long => "long"
    case Short => "short"
    case Flat => "flat"
  }

  function AllowedText(allowed: AllowedSide): string {
    match allowed
    case Both => "both"
    case LongOnly => "long_only"
    case ShortOnly => "short_only"
    case FlatOnly => "flat_only"
  }

  predicate OrderAllowed(p: Point, size: real, allowed: AllowedSide) {
    SideAllowed(PositionSide(p.position), allowed) && Replay.Abs(p.position) <= size
  }

  function FirstForbidden(points: seq<Point>, size: real, allowed: AllowedSide): (k: nat)
    ensures k <= |points| && (k < |points| ==> !OrderAllowed(points[k], size, allowed))
    ensures forall i :: 0 <= i < k ==> OrderAllowed(points[i], size, allowed)
  {
    if points == [] then 0
    else
      var k := FirstForbidden(points[..|points| - 1], size, allowed);
      if k < |points| - 1 || !OrderAllowed(points[k], size, allowed) then k else |points|
  }

  function Forbidden(p: Point, size: real, allowed: AllowedSide, trace: Trace): ProbeResult {
    var side := PositionSide(p.position);
    var assertion :=
      if !SideAllowed(side, allowed) then
        Assertion("unauthorized_order_side", "==", AllowedText(allowed), SideText(side), trace.scenarioId, p.bar, false)
      else
        Assertion("unauthorized_order_size", "<=", CanonicalNumber(size), CanonicalNumber(Replay.Abs(p.position)),
                  trace.scenarioId, p.bar, false);
    ProbeResult(Breach, [assertion], Some(p.bar))
  }

  function UnauthorizedResult(trace: Trace, size: real, allowed: AllowedSide): ProbeResult {
    var k := FirstForbidden(trace.points, size, allowed);
    if k < |trace.points| then Forbidden(trace.points[k], size, allowed, trace)
    else SizeProbe("unauthorized_order", trace.points, size, trace, 0)
  }

  method EvaluateUnauthorized(trace: Trace, size: real, allowed: AllowedSide) returns (result: ProbeResult)
    ensures result == UnauthorizedResult(trace, size, allowed)
  {
    for i := 0 to |trace.points|
      invariant forall j :: 0 <= j < i ==> OrderAllowed(trace.points[j], size, allowed)
    {
      var point := trace.points[i];
      if !SideAllowed(PositionSide(point.position), allowed) || Replay.Abs(point.position) > size {
        return Forbidden(point, size, allowed, trace);
      }
    }
    result := SizeProbe("unauthorized_order", trace.points, size, trace, 0);
  }

  // ---------- blind retries ----------

  /** The first point at which the retries seen so far exceed the limit, or the number of points. */
  function FirstExcess(points: seq<Point>, after: int, limit: real): (k: nat)
    ensures k <= |points|
    ensures k < |points| ==> ChangesFrom(points[..k + 1], after) as real > limit
    ensures forall e :: 0 < e <= k ==> ChangesFrom(points[..e], after) as real <= limit
  {
    if points == [] then 0
    else
      var before := points[..|points| - 1];
      var k := FirstExcess(before, after, limit);
      assert forall e :: 0 < e <= |before| ==> before[..e] == points[..e];
      assert points[..|points|] == points;
      if k < |before| || ChangesFrom(points, after) as real > limit then k else |points|
  }

  function BlindRetryResult(trace: Trace, after: int, limit: real): ProbeResult {
    var k := FirstExcess(trace.points, after, limit);
    if k < |trace.points| then
      Judged("blind_retry", limit, ChangesFrom(trace.points[..k + 1], after) as real, trace, trace.points[k].bar)
    else
      Judged("blind_retry", limit, ChangesFrom(trace.points, after) as real, trace, LastBar(trace.points, after))
  }

  lemma {:induction false} PrefixChanges(points: seq<Point>, from: int, k: nat)
    requires k <= |points|
    ensures ChangesFrom(points[..k], from) <= ChangesFrom(points, from)
    decreases |points|
  {
    if k < |points| {
      PrefixChanges(points[..|points| - 1], from, k);
      assert points[..|points| - 1][..k] == points[..k];
    } else {
      assert points[..k] == points;
    }
  }

  /** Counts never fall, so the point where the limit is first passed is the first excess. */
  lemma {:induction false} FirstExcessAt(points: seq<Point>, after: int, limit: real, k: nat)
    requires k <= |points| && limit >= 0.0 && ChangesFrom(points[..k], after) as real <= limit
    requires k < |points| ==> ChangesFrom(points[..k + 1], after) as real > limit
    ensures FirstExcess(points, after, limit) == k
  {
    var found := FirstExcess(points, after, limit);
    var earlier := if found < k then found + 1 else k;
    PrefixChanges(points[..k], after, earlier);
    assert points[..k][..earlier] == points[..earlier];
  }

  /** The counting loop with its early exit. */
  method EvaluateBlindRetry(trace: Trace, after: int, limit: real) returns (result: ProbeResult)
    requires limit >= 0.0
    ensures result == BlindRetryResult(trace, after, limit)
  {
    var points := trace.points;
    var retries: nat := 0;
    var evidence := LastBar(points, after);
    var i := 0;
    while i < |points|
      invariant i <= |points| && retries == ChangesFrom(points[..i], after)
      invariant retries as real <= limit && evidence == LastBar(points, after)
    {
      assert points[..i + 1][..i] == points[..i];
      if i > 0 && points[i].bar >= after && points[i].position != points[i - 1].position {
        retries := retries + 1;
        if retries as real > limit {
          evidence := points[i].bar;
          FirstExcessAt(points, after, limit, i);
          return Judged("blind_retry", limit, retries as real, trace, evidence);
        }
      }
      i := i + 1;
    }
    FirstExcessAt(points, after, limit, |points|);
    assert points[..|points|] == points;
    result := Judged("blind_retry", limit, retries as real, trace, evidence);
  }

  // ---------- the registry ----------

  /** The scenario a probe is restricted to, if any. */
  function Scope(check: Check): Option<string> {
    match check
    case MaxDrawdown(_) => None
    case TradeBudget(_) => None
    case NoEntryWhen(scope, _, _) => scope
    case UnauthorizedOrder(target, _, _) => Some(target)
    case SkipConfirm(target, _, _) => Some(target)
    case BlindRetry(target, _, _) => Some(target)
  }

  predicate InScope(check: Check, scenarioId: string) {
    Scope(check).None? || Scope(check).value == scenarioId
  }

  /** `probe.evaluate` on a candidate trace; None is the exception `max` raises on no points. */
  function Evaluate(check: Check, trace: Trace): Option<ProbeResult> {
    match check
    case MaxDrawdown(limit) =>
      if trace.points == [] then None
      else
        var drawdowns := seq(|trace.points|, i requires 0 <= i < |trace.points| => trace.points[i].drawdown);
        var worst := trace.points[FirstMax(drawdowns)];
        Some(Judged("max_drawdown", limit, worst.drawdown, trace, worst.bar))
    case TradeBudget(n) =>
      Some(Judged("trade_budget", n, trace.tradeCount as real, trace, LastBar(trace.points, 0)))
    case NoEntryWhen(_, bar, size) =>
      if !InScope(check, trace.scenarioId) then
        Some(ProbeResult(Passed, [Assertion("no_entry_when", "<=", CanonicalNumber(size), "0", trace.scenarioId, 0,
                                            true)], None))
      else Some(SizeProbe("no_entry_when", Window(trace.points, 0, Some(bar)), size, trace, 0))
    case UnauthorizedOrder(_, size, allowed) =>
      if !InScope(check, trace.scenarioId) then Some(PassResult("unauthorized_order", trace.scenarioId))
      else Some(UnauthorizedResult(trace, size, allowed))
    case SkipConfirm(_, bar, size) =>
      if !InScope(check, trace.scenarioId) then Some(PassResult("skip_confirm", trace.scenarioId))
      else Some(SizeProbe("skip_confirm", Window(trace.points, bar, None), size, trace, bar))
    case BlindRetry(_, after, limit) =>
      if !InScope(check, trace.scenarioId) then Some(PassResult("blind_retry", trace.scenarioId))
      else Some(BlindRetryResult(trace, after, limit))
  }

  // ---------- what a probe means ----------

  /** The promise behind each probe, over the NAV and the positions of the trace. */
  ghost predicate Meaning(check: Check, trace: Trace) {
    var points := trace.points;
    InScope(check, trace.scenarioId) ==>
      match check
      case MaxDrawdown(limit) =>
        forall i, j :: 0 <= i <= j < |points| ==> points[j].nav >= KeptShare(limit, points[i].nav)
      case TradeBudget(n) => ChangesFrom(points, 0) as real <= n
      case NoEntryWhen(_, bar, size) =>
        forall i :: 0 <= i < |points| && i < bar ==> -size <= points[i].position <= size
      case UnauthorizedOrder(_, size, allowed) =>
        forall i :: 0 <= i < |points| ==>
          && -size <= points[i].position <= size
          && (allowed.LongOnly? ==> points[i].position >= 0.0)
          && (allowed.ShortOnly? ==> points[i].position <= 0.0)
          && (allowed.FlatOnly? ==> points[i].position == 0.0)
      case SkipConfirm(_, bar, size) =>
        forall i :: 0 <= i < |points| && i >= bar ==> -size <= points[i].position <= size
      case BlindRetry(_, after, limit) => ChangesFrom(points, after) as real <= limit
  }

  /** What is left of a NAV after the largest drawdown allowed. */
  function KeptShare(limit: real, nav: real): real {
    (1.0 - limit) * nav
  }

  /** A trace produced by a completed replay. */
  ghost predicate Replayed(trace: Trace, cfg: Settings, bars: seq<Bar>, signals: seq<real>) {
    && Inputs(bars, signals)
    && Run(cfg, bars, signals, |bars|).Ok?
    && trace.points == Run(cfg, bars, signals, |bars|).value.points
    && trace.tradeCount == Run(cfg, bars, signals, |bars|).value.state.trades
  }

  ghost predicate Holds(check: Check, trace: Trace) {
    Evaluate(check, trace).Some? && AllHold(Evaluate(check, trace).value.assertions)
  }

  lemma {:induction false} DrawdownBound(peak: real, nav: real, limit: real)
    requires peak > 0.0
    ensures (peak - nav) / peak <= limit <==> nav >= KeptShare(limit, peak)
  {
  }

  lemma {:induction false} KeptShareMonotone(limit: real, low: real, high: real)
    requires limit <= 1.0 && low <= high
    ensures KeptShare(limit, low) <= KeptShare(limit, high)
  {
  }

  lemma {:induction false} WorstDrawdown(trace: Trace, limit: real)
    requires trace.points != []
    ensures Holds(MaxDrawdown(limit), trace) <==> forall j :: 0 <= j < |trace.points| ==>
      trace.points[j].drawdown <= limit
  {
    var drawdowns := seq(|trace.points|, i requires 0 <= i < |trace.points| => trace.points[i].drawdown);
    var best := FirstMax(drawdowns);
    assert Evaluate(MaxDrawdown(limit), trace).value.assertions[0].holds <==> drawdowns[best] <= limit;
    assert forall j :: 0 <= j < |trace.points| ==> drawdowns[j] == trace.points[j].drawdown;
  }

  /** The drawdown probe passes exactly when no NAV falls below (1 - d) times an earlier NAV. */
  lemma {:induction false} MaxDrawdownMeaning(limit: real, trace: Trace, cfg: Settings, bars: seq<Bar>,
                                              signals: seq<real>)
    requires limit <= 1.0 && Replayed(trace, cfg, bars, signals)
    ensures Holds(MaxDrawdown(limit), trace) <==> Meaning(MaxDrawdown(limit), trace)
  {
    var points, n := trace.points, |bars|;
    WorstDrawdown(trace, limit);
    forall j | 0 <= j < n
      ensures points[j].drawdown <= limit <==> forall i :: 0 <= i <= j ==>
        points[j].nav >= KeptShare(limit, points[i].nav)
    {
      DrawdownAgainstEarlier(cfg, bars, signals, j, limit);
    }
  }

  lemma {:induction false} DrawdownAgainstEarlier(cfg: Settings, bars: seq<Bar>, signals: seq<real>, j: nat,
                                                  limit: real)
    requires limit <= 1.0 && Inputs(bars, signals) && j < |bars| && Run(cfg, bars, signals, |bars|).Ok?
    ensures var points := Run(cfg, bars, signals, |bars|).value.points;
      points[j].drawdown <= limit <==> forall i :: 0 <= i <= j ==> points[j].nav >= KeptShare(limit, points[i].nav)
  {
    var points := Run(cfg, bars, signals, |bars|).value.points;
    DrawdownIsRatio(cfg, bars, signals, |bars|, j);
    PeakIsRunningMaximum(cfg, bars, signals, |bars|, j);
    DrawdownBound(points[j].peak, points[j].nav, limit);
    forall i | 0 <= i <= j ensures KeptShare(limit, points[i].nav) <= KeptShare(limit, points[j].peak) {
      KeptShareMonotone(limit, points[i].nav, points[j].peak);
    }
  }

  lemma {:induction false} SizeProbeMeaning(metric: string, window: seq<Point>, limit: real, trace: Trace,
                                            emptyBar: int)
    requires limit >= 0.0
    ensures AllHold(SizeProbe(metric, window, limit, trace, emptyBar).assertions)
       <==> forall p :: p in window ==> -limit <= p.position <= limit
  {
    var assertions := SizeProbe(metric, window, limit, trace, emptyBar).assertions;
    assert AllHold(assertions) <==> assertions[0].holds;
    if window != [] {
      var sizes := Sizes(window);
      var best := FirstMax(sizes);
      assert forall i :: 0 <= i < |window| ==> sizes[i] == Replay.Abs(window[i].position);
      if sizes[best] <= limit {
        forall p | p in window ensures -limit <= p.position <= limit {
          var i :| 0 <= i < |window| && window[i] == p;
          assert sizes[i] <= sizes[best];
        }
      } else {
        assert window[best] in window;
      }
    }
  }

  /** The early exit changes what is reported, never whether the probe holds. */
  lemma {:induction false} BlindRetryMeaning(trace: Trace, after: int, limit: real)
    requires limit >= 0.0
    ensures AllHold(BlindRetryResult(trace, after, limit).assertions) <==>
      ChangesFrom(trace.points, after) as real <= limit
  {
    var points := trace.points;
    var k := FirstExcess(points, after, limit);
    assert AllHold(BlindRetryResult(trace, after, limit).assertions) <==>
      BlindRetryResult(trace, after, limit).assertions[0].holds;
    assert points[..|points|] == points;
    if k < |points| {
      PrefixChanges(points, after, k + 1);
    }
  }

  lemma {:induction false} PointBars(trace: Trace, cfg: Settings, bars: seq<Bar>, signals: seq<real>)
    requires Replayed(trace, cfg, bars, signals)
    ensures |trace.points| == |bars| && forall i :: 0 <= i < |bars| ==> trace.points[i].bar == i
  {
    forall i | 0 <= i < |bars| ensures trace.points[i].bar == i {
      PositionIsPreviousSignal(cfg, bars, signals, |bars|, i);
    }
  }

  /** Every probe on a replayed trace evaluates, and passes exactly when its meaning holds. */
  lemma {:induction false} ProbeMeaning(check: Check, trace: Trace, cfg: Settings, bars: seq<Bar>, signals: seq<real>)
    requires ValidCheck(check) && Replayed(trace, cfg, bars, signals)
    ensures Evaluate(check, trace).Some? && (Holds(check, trace) <==> Meaning(check, trace))
  {
    PointBars(trace, cfg, bars, signals);
    if !InScope(check, trace.scenarioId) {
      OutOfScopePasses(check, trace);
    } else if check.MaxDrawdown? {
      MaxDrawdownMeaning(check.limit, trace, cfg, bars, signals);
    } else if check.TradeBudget? {
      TradeBudgetMeaning(check.maxTrades, trace, cfg, bars, signals);
    } else {
      PositionProbeMeaning(check, trace);
    }
  }

  lemma {:induction false} OutOfScopePasses(check: Check, trace: Trace)
    requires !InScope(check, trace.scenarioId)
    ensures Holds(check, trace) && Meaning(check, trace)
  {
  }

  lemma {:induction false} PositionProbeMeaning(check: Check, trace: Trace)
    requires ValidCheck(check) && !check.MaxDrawdown? && !check.TradeBudget? && InScope(check, trace.scenarioId)
    requires forall i :: 0 <= i < |trace.points| ==> trace.points[i].bar == i
    ensures Evaluate(check, trace).Some? && (Holds(check, trace) <==> Meaning(check, trace))
  {
    match check
    case NoEntryWhen(_, bar, size) => WindowMeaning("no_entry_when", 0, Some(bar), size, trace, 0);
    case UnauthorizedOrder(_, size, allowed) => UnauthorizedMeaning(trace, size, allowed);
    case SkipConfirm(_, bar, size) => WindowMeaning("skip_confirm", bar, None, size, trace, bar);
    case BlindRetry(_, after, limit) => BlindRetryMeaning(trace, after, limit);
  }

  lemma {:induction false} TradeBudgetMeaning(n: real, trace: Trace, cfg: Settings, bars: seq<Bar>, signals: seq<real>)
    requires Replayed(trace, cfg, bars, signals)
    ensures Holds(TradeBudget(n), trace) <==> ChangesFrom(trace.points, 0) as real <= n
  {
    TradesAreChanges(cfg, bars, signals, |bars|);
    assert Holds(TradeBudget(n), trace) <==> Evaluate(TradeBudget(n), trace).value.assertions[0].holds;
  }

  lemma {:induction false} WindowMeaning(metric: string, from: int, to: Option<int>, size: real, trace: Trace,
                                         emptyBar: int)
    requires size >= 0.0 && forall i :: 0 <= i < |trace.points| ==> trace.points[i].bar == i
    ensures AllHold(SizeProbe(metric, Window(trace.points, from, to), size, trace, emptyBar).assertions)
       <==> forall i :: 0 <= i < |trace.points| && from <= i && (to.Some? ==> i < to.value)
              ==> -size <= trace.points[i].position <= size
  {
    var window := Window(trace.points, from, to);
    SizeProbeMeaning(metric, window, size, trace, emptyBar);
    assert forall i :: 0 <= i < |trace.points| && from <= i && (to.Some? ==> i < to.value) ==>
      trace.points[i] in window;
  }

  lemma {:induction false} UnauthorizedMeaning(trace: Trace, size: real, allowed: AllowedSide)
    requires size >= 0.0
    ensures AllHold(UnauthorizedResult(trace, size, allowed).assertions)
       <==> forall i :: 0 <= i < |trace.points| ==>
          && -size <= trace.points[i].position <= size
          && (allowed.LongOnly? ==> trace.points[i].position >= 0.0)
          && (allowed.ShortOnly? ==> trace.points[i].position <= 0.0)
          && (allowed.FlatOnly? ==> trace.points[i].position == 0.0)
  {
    var k := FirstForbidden(trace.points, size, allowed);
    var assertions := UnauthorizedResult(trace, size, allowed).assertions;
    assert AllHold(assertions) <==> assertions[0].holds;
    if k < |trace.points| {
      assert !OrderAllowed(trace.points[k], size, allowed);
    } else {
      SizeProbeMeaning("unauthorized_order", trace.points, size, trace, 0);
      assert forall i :: 0 <= i < |trace.points| ==>
        OrderAllowed(trace.points[i], size, allowed) && trace.points[i] in trace.points;
    }
  }

  lemma {:induction false} FewRetriesHold(target: string, after: int, limit: real, trace: Trace)
    requires limit >= 0.0 && ChangesFrom(trace.points, after) as real <= limit
    ensures Holds(BlindRetry(target, after, limit), trace)
  {
    BlindRetryMeaning(trace, after, limit);
  }

  /** A trade budget of N that passes makes every blind-retry probe with at least N retries pass. */
  lemma {:induction false} BudgetCoversRetries(budget: real, target: string, after: int, limit: real, trace: Trace,
                            cfg: Settings, bars: seq<Bar>, signals: seq<real>)
    requires Replayed(trace, cfg, bars, signals) && 0.0 <= budget <= limit
    requires Holds(TradeBudget(budget), trace)
    ensures Holds(BlindRetry(target, after, limit), trace)
  {
    TradeBudgetMeaning(budget, trace, cfg, bars, signals);
    PointBars(trace, cfg, bars, signals);
    LaterChanges(trace.points, after);
    FewRetriesHold(target, after, limit, trace);
  }

  lemma {:induction false} LaterChanges(points: seq<Point>, from: int)
    requires forall i :: 0 <= i < |points| ==> points[i].bar >= 0
    ensures ChangesFrom(points, from) <= ChangesFrom(points, 0)
  {
    if |points| >= 2 { LaterChanges(points[..|points| - 1], from); }
  }
}
