/** What each probe reports, word for word: the numbers printed, the bar named as evidence and the outcome. */
module Findings {
  import opened Wrappers
  import opened Replay
  import opened Canonical
  import opened Probes

  /** One assertion, and a breach with its bar as evidence when it does not hold. */
  ghost predicate Says(r: Option<ProbeResult>, metric: string, op: string, threshold: string, observed: string,
                       scenarioId: string, bar: int, holds: bool) {
    r == Some(ProbeResult(if holds then Passed else Breach,
                          [Assertion(metric, op, threshold, observed, scenarioId, bar, holds)],
                          if holds then None else Some(bar)))
  }

  function Size(p: Point): real {
    if p.position < 0.0 then -p.position else p.position
  }

  predicate Within(p: Point, from: Option<int>, to: Option<int>) {
    (from.Some? ==> p.bar >= from.value) && (to.Some? ==> p.bar < to.value)
  }

  /** The first point of largest size among those within the bars given. */
  ghost predicate LargestAt(points: seq<Point>, from: Option<int>, to: Option<int>, k: nat) {
    && k < |points| && Within(points[k], from, to)
    && (forall j :: 0 <= j < |points| && Within(points[j], from, to) ==> Size(points[j]) <= Size(points[k]))
    && (forall j :: 0 <= j < k && Within(points[j], from, to) ==> Size(points[j]) < Size(points[k]))
  }

  /** A probe of sizes reports the first largest one, or zero at `emptyBar` when there is no point. */
  ghost predicate ReportsLargest(r: Option<ProbeResult>, metric: string, limit: real, trace: Trace, from: Option<int>,
                                 to: Option<int>, emptyBar: int) {
    && (forall k: nat :: LargestAt(trace.points, from, to, k) ==>
          Says(r, metric, "<=", CanonicalNumber(limit), CanonicalNumber(Size(trace.points[k])), trace.scenarioId,
               trace.points[k].bar, Size(trace.points[k]) <= limit))
    && ((forall p :: p in trace.points ==> !Within(p, from, to)) ==>
          Says(r, metric, "<=", CanonicalNumber(limit), CanonicalNumber(0.0), trace.scenarioId, emptyBar, 0.0 <= limit))
    && ((exists k: nat :: LargestAt(trace.points, from, to, k)) ||
        (forall p :: p in trace.points ==> !Within(p, from, to)))
  }

  /** The changes of position at bars from `after` on. */
  ghost function Retries(points: seq<Point>, after: int): set<int> {
    set i: int | 0 < i < |points| && RetryAt(points, after, i)
  }

  ghost predicate PassesLimitAt(points: seq<Point>, after: int, limit: real, k: nat) {
    k < |points| && |Retries(points[..k], after)| as real <= limit < |Retries(points[..k + 1], after)| as real
  }

  predicate WrongSide(p: Point, allowed: AllowedSide) {
    || (p.position > 0.0 && allowed in {ShortOnly, FlatOnly})
    || (p.position < 0.0 && allowed in {LongOnly, FlatOnly})
  }

  /** The first point that is on a wrong side or too large. */
  ghost predicate UnauthorizedAt(points: seq<Point>, size: real, allowed: AllowedSide, k: nat) {
    && k < |points| && (WrongSide(points[k], allowed) || Size(points[k]) > size)
    && forall j :: 0 <= j < k ==> !WrongSide(points[j], allowed) && Size(points[j]) <= size
  }

  /** The first point of the largest drawdown. */
  ghost predicate DeepestAt(points: seq<Point>, k: nat) {
    && k < |points|
    && (forall j :: 0 <= j < |points| ==> points[j].drawdown <= points[k].drawdown)
    && (forall j :: 0 <= j < k ==> points[j].drawdown < points[k].drawdown)
  }

  /** The drawdown probe reports the first point of the largest drawdown, and has nothing to say of no points. */
  lemma {:induction false} DrawdownReport(limit: real, trace: Trace)
    ensures var r, points := Evaluate(MaxDrawdown(limit), trace), trace.points;
      && (r.None? <==> points == []) && (points != [] ==> exists k: nat :: DeepestAt(points, k))
      && forall k: nat :: DeepestAt(points, k) ==>
        Says(r, "max_drawdown", "<=", CanonicalNumber(limit), CanonicalNumber(points[k].drawdown), trace.scenarioId,
             points[k].bar, points[k].drawdown <= limit)
  {
    hide CanonicalNumber;
    var points := trace.points;
    if points != [] {
      var drawdowns := seq(|trace.points|, i requires 0 <= i < |trace.points| => trace.points[i].drawdown);
      var best := FirstMax(drawdowns);
      assert forall j :: 0 <= j < |points| ==> drawdowns[j] == points[j].drawdown;
      assert Evaluate(MaxDrawdown(limit), trace) ==
        Some(Judged("max_drawdown", limit, points[best].drawdown, trace, points[best].bar));
      assert DeepestAt(points, best);
      assert forall k: nat :: DeepestAt(points, k) ==> k == best;
    }
  }

  lemma {:induction false} BudgetReport(n: real, trace: Trace)
    ensures Says(Evaluate(TradeBudget(n), trace), "trade_budget", "<=", CanonicalNumber(n),
                 CanonicalNumber(trace.tradeCount as real), trace.scenarioId,
                 if trace.points == [] then 0 else trace.points[|trace.points| - 1].bar, trace.tradeCount as real <= n)
  {
    hide CanonicalNumber;
  }

  /** Before the given bar, in every scenario or in the one named. */
  lemma {:induction false} NoEntryReport(scope: Option<string>, bar: int, size: real, trace: Trace)
    requires forall p :: p in trace.points ==> p.bar >= 0
    ensures var r := Evaluate(NoEntryWhen(scope, bar, size), trace);
      if scope.None? || scope.value == trace.scenarioId then
        ReportsLargest(r, "no_entry_when", size, trace, None, Some(bar), 0)
      else Says(r, "no_entry_when", "<=", CanonicalNumber(size), "0", trace.scenarioId, 0, true)
  {
    hide CanonicalNumber, ReportsLargest;
    if scope.None? || scope.value == trace.scenarioId {
      assert Window(trace.points, 0, Some(bar)) == Kept(trace.points, None, Some(bar)) by {
        KeptFromZero(trace.points, Some(bar));
      }
      LargestReport("no_entry_when", size, trace, None, Some(bar), 0);
    }
  }

  /** From the confirming bar on, in the scenario named. */
  lemma {:induction false} SkipConfirmReport(target: string, bar: int, size: real, trace: Trace)
    ensures var r := Evaluate(SkipConfirm(target, bar, size), trace);
      if target == trace.scenarioId then ReportsLargest(r, "skip_confirm", size, trace, Some(bar), None, bar)
      else Says(r, "skip_confirm", "<=", "0", "0", trace.scenarioId, 0, true)
  {
    hide CanonicalNumber, ReportsLargest;
    if target == trace.scenarioId {
      KeptFrom(trace.points, bar);
      LargestReport("skip_confirm", size, trace, Some(bar), None, bar);
    }
  }

  /** The side is looked at before the size. */
  ghost predicate SaysForbidden(r: Option<ProbeResult>, p: Point, size: real, allowed: AllowedSide,
                                scenarioId: string) {
    if WrongSide(p, allowed) then
      Says(r, "unauthorized_order_side", "==",
           match allowed case Both => "both" case LongOnly => "long_only" case ShortOnly => "short_only"
             case FlatOnly => "flat_only",
           if p.position > 0.0 then "long" else "short", scenarioId, p.bar, false)
    else
      Says(r, "unauthorized_order_size", "<=", CanonicalNumber(size), CanonicalNumber(Size(p)), scenarioId, p.bar,
           false)
  }

  /** The first order on a wrong side or too large; else the largest order. */
  lemma {:induction false} UnauthorizedReport(target: string, size: real, allowed: AllowedSide, trace: Trace)
    ensures var r, points := Evaluate(UnauthorizedOrder(target, size, allowed), trace), trace.points;
      && (target != trace.scenarioId ==> Says(r, "unauthorized_order", "<=", "0", "0", trace.scenarioId, 0, true))
      && (target == trace.scenarioId ==>
            && (forall k: nat :: UnauthorizedAt(points, size, allowed, k) ==>
                  SaysForbidden(r, points[k], size, allowed, trace.scenarioId))
            && ((forall p :: p in points ==> !WrongSide(p, allowed) && Size(p) <= size) ==>
                  ReportsLargest(r, "unauthorized_order", size, trace, None, None, 0)))
  {
    hide CanonicalNumber, ReportsLargest, SaysForbidden, UnauthorizedResult, WrongSide, Size;
    if target == trace.scenarioId {
      forall k: nat | UnauthorizedAt(trace.points, size, allowed, k)
        ensures k < |trace.points|
        ensures SaysForbidden(Some(UnauthorizedResult(trace, size, allowed)), trace.points[k], size, allowed,
                              trace.scenarioId)
      {
        FirstUnauthorized(trace, size, allowed, k);
      }
      if forall p :: p in trace.points ==> !WrongSide(p, allowed) && Size(p) <= size {
        NoneUnauthorized(trace, size, allowed);
      }
    }
  }

  lemma {:induction false} FirstUnauthorized(trace: Trace, size: real, allowed: AllowedSide, k: nat)
    requires UnauthorizedAt(trace.points, size, allowed, k)
    ensures SaysForbidden(Some(UnauthorizedResult(trace, size, allowed)), trace.points[k], size, allowed,
                          trace.scenarioId)
  {
    hide SaysForbidden, Forbidden, OrderAllowed, WrongSide, Size;
    AllowedMeans(size, allowed);
    FirstForbiddenAt(trace.points, size, allowed, k);
    ForbiddenReport(trace.points[k], size, allowed, trace);
  }

  lemma {:induction false} NoneUnauthorized(trace: Trace, size: real, allowed: AllowedSide)
    requires forall p :: p in trace.points ==> !WrongSide(p, allowed) && Size(p) <= size
    ensures ReportsLargest(Some(UnauthorizedResult(trace, size, allowed)), "unauthorized_order", size, trace, None,
                           None, 0)
  {
    hide ReportsLargest, SizeProbe, OrderAllowed, WrongSide, Size;
    AllowedMeans(size, allowed);
    NoneForbidden(trace.points, size, allowed);
    KeptAll(trace.points);
    LargestReport("unauthorized_order", size, trace, None, None, 0);
  }

  lemma {:induction false} AllowedMeans(size: real, allowed: AllowedSide)
    ensures forall p :: OrderAllowed(p, size, allowed) <==> !WrongSide(p, allowed) && Size(p) <= size
  {
  }

  lemma {:induction false} ForbiddenReport(p: Point, size: real, allowed: AllowedSide, trace: Trace)
    requires !OrderAllowed(p, size, allowed)
    ensures SaysForbidden(Some(Forbidden(p, size, allowed, trace)), p, size, allowed, trace.scenarioId)
  {
    hide CanonicalNumber;
  }

  lemma {:induction false} FirstForbiddenAt(points: seq<Point>, size: real, allowed: AllowedSide, k: nat)
    requires k < |points| && !OrderAllowed(points[k], size, allowed)
    requires forall j :: 0 <= j < k ==> OrderAllowed(points[j], size, allowed)
    ensures FirstForbidden(points, size, allowed) == k
  {
    var found := FirstForbidden(points, size, allowed);
    assert found <= k;
  }

  lemma {:induction false} NoneForbidden(points: seq<Point>, size: real, allowed: AllowedSide)
    requires forall p :: p in points ==> OrderAllowed(p, size, allowed)
    ensures FirstForbidden(points, size, allowed) == |points|
  {
    assert forall k :: 0 <= k < |points| ==> points[k] in points;
  }

  /** The count is reported where it first passes the limit, or in full at the last bar. */
  lemma {:induction false} BlindRetryReport(target: string, after: int, limit: real, trace: Trace)
    requires limit >= 0.0
    ensures var r, points := Evaluate(BlindRetry(target, after, limit), trace), trace.points;
      && (target != trace.scenarioId ==> Says(r, "blind_retry", "<=", "0", "0", trace.scenarioId, 0, true))
      && (target == trace.scenarioId ==>
            && (forall k: nat :: PassesLimitAt(points, after, limit, k) ==>
                  Says(r, "blind_retry", "<=", CanonicalNumber(limit),
                       CanonicalNumber(|Retries(points[..k + 1], after)| as real), trace.scenarioId, points[k].bar,
                         false))
            && (|Retries(points, after)| as real <= limit ==>
                  Says(r, "blind_retry", "<=", CanonicalNumber(limit),
                       CanonicalNumber(|Retries(points, after)| as real),
                       trace.scenarioId, if points == [] then after else points[|points| - 1].bar, true)))
  {
    hide CanonicalNumber;
    var points := trace.points;
    if target == trace.scenarioId {
      RetriesCounted(points, after);
      forall k | 0 <= k <= |points| ensures |Retries(points[..k], after)| == ChangesFrom(points[..k], after) {
        RetriesCounted(points[..k], after);
      }
      forall k: nat | PassesLimitAt(points, after, limit, k) ensures FirstExcess(points, after, limit) == k {
        FirstExcessAt(points, after, limit, k);
      }
      if |Retries(points, after)| as real <= limit {
        assert points[..|points|] == points;
        FirstExcessAt(points, after, limit, |points|);
      }
    }
  }

  lemma {:induction false} RetriesCounted(points: seq<Point>, after: int)
    ensures |Retries(points, after)| == ChangesFrom(points, after)
  {
    hide Retries;
    if |points| >= 2 { RetriesCounted(points[..|points| - 1], after); }
    RetriesSnoc(points, after);
  }

  predicate RetryAt(points: seq<Point>, after: int, i: int)
    requires 0 < i < |points|
  {
    points[i].bar >= after && points[i].position != points[i - 1].position
  }

  lemma {:induction false} RetriesSnoc(points: seq<Point>, after: int)
    ensures |points| < 2 ==> Retries(points, after) == {}
    ensures |points| >= 2 ==>
      var n := |points| - 1;
      |Retries(points, after)| == |Retries(points[..n], after)| + if RetryAt(points, after, n) then 1 else 0
  {
    if |points| >= 2 {
      var n := |points| - 1;
      var front, rest := points[..n], if RetryAt(points, after, n) then {n} else {};
      assert Retries(points, after) == Retries(front, after) + rest && Retries(front, after) !! rest;
    }
  }

  // ---------- the first largest ----------

  function Kept(points: seq<Point>, from: Option<int>, to: Option<int>): seq<Point> {
    if points == [] then []
    else
      var front, last := points[..|points| - 1], points[|points| - 1];
      Kept(front, from, to) + if Within(last, from, to) then [last] else []
  }

  lemma {:induction false} KeptFromZero(points: seq<Point>, to: Option<int>)
    requires forall p :: p in points ==> p.bar >= 0
    ensures Window(points, 0, to) == Kept(points, None, to)
  {
    if points != [] {
      var front := points[..|points| - 1];
      KeptFromZero(front, to);
      assert points[|points| - 1] in points;
    }
  }

  lemma {:induction false} KeptFrom(points: seq<Point>, from: int)
    ensures Window(points, from, None) == Kept(points, Some(from), None)
  {
    if points != [] { KeptFrom(points[..|points| - 1], from); }
  }

  lemma {:induction false} KeptAll(points: seq<Point>)
    ensures Kept(points, None, None) == points
  {
    if points != [] { KeptAll(points[..|points| - 1]); }
  }

  lemma {:induction false} KeptMembers(points: seq<Point>, from: Option<int>, to: Option<int>)
    ensures forall p :: p in Kept(points, from, to) <==> p in points && Within(p, from, to)
  {
    if points != [] {
      var front := points[..|points| - 1];
      KeptMembers(front, from, to);
      assert points == front + [points[|points| - 1]];
    }
  }

  function Worst(points: seq<Point>): Point
    requires points != []
  {
    points[FirstMax(Sizes(points))]
  }

  lemma {:induction false} WorstSnoc(front: seq<Point>, last: Point)
    ensures Worst(front + [last]) ==
      if front != [] && Size(last) <= Size(Worst(front)) then Worst(front) else last
  {
    if front != [] {
      var sizes := Sizes(front + [last]);
      assert sizes[..|sizes| - 1] == Sizes(front);
      FirstMaxSnoc(sizes);
    }
  }

  lemma {:induction false} LargestSnoc(front: seq<Point>, last: Point, from: Option<int>, to: Option<int>, k: nat)
    requires LargestAt(front, from, to, k)
    ensures LargestAt(front + [last], from, to,
                      if Within(last, from, to) && Size(last) > Size(front[k]) then |front| else k)
  {
  }

  lemma {:induction false} LargestKept(points: seq<Point>, from: Option<int>, to: Option<int>) returns (k: nat)
    requires Kept(points, from, to) != []
    ensures LargestAt(points, from, to, k) && points[k] == Worst(Kept(points, from, to))
  {
    hide Worst;
    var front, last := points[..|points| - 1], points[|points| - 1];
    var kept := Kept(front, from, to);
    assert points == front + [last];
    if Within(last, from, to) {
      assert Kept(points, from, to) == kept + [last];
      WorstSnoc(kept, last);
    } else {
      assert Kept(points, from, to) == kept;
    }
    if kept == [] {
      k := |front|;
      KeptMembers(front, from, to);
      assert forall j :: 0 <= j < |front| ==> front[j] in front;
    } else {
      k := LargestKept(front, from, to);
      LargestSnoc(front, last, from, to, k);
      if Within(last, from, to) && Size(last) > Size(front[k]) { k := |front|; }
    }
  }

  lemma {:induction false} FirstMaxSnoc(keys: seq<real>)
    requires |keys| > 1
    ensures var best := FirstMax(keys[..|keys| - 1]);
      FirstMax(keys) == if keys[|keys| - 1] > keys[best] then |keys| - 1 else best
  {
  }

  lemma {:induction false} LargestReport(metric: string, limit: real, trace: Trace, from: Option<int>, to: Option<int>,
                                         emptyBar: int)
    ensures ReportsLargest(Some(SizeProbe(metric, Kept(trace.points, from, to), limit, trace, emptyBar)), metric, limit,
                           trace, from, to, emptyBar)
  {
    hide CanonicalNumber, Sizes, FirstMax;
    var points := trace.points;
    KeptMembers(points, from, to);
    if Kept(points, from, to) != [] {
      var best := LargestKept(points, from, to);
      assert points[best] in Kept(points, from, to);
      assert forall k: nat :: LargestAt(points, from, to, k) ==> k == best;
    } else {
      assert forall k :: 0 <= k < |points| ==> points[k] in points;
    }
  }
}
