/** What a replay comes to, point by point, from the rows of the scenario, the worker's signals and the fields of the
    configuration - without the loop of `engine_adapter/deterministic.py`. */
module Reference {
  import opened Wrappers
  import opened Models
  import opened Replay

  /** The NAV once the gap to the open has been carried at the old position. */
  function GappedNav(nav: real, position: real, previousClose: real, open: real): real
    requires previousClose > 0.0
  {
    nav + nav * position * (open - previousClose) / previousClose
  }

  /** What trading `size` takes off: the fee per size, the slippage per size squared, both in basis points. */
  function ChargedNav(nav: real, size: real, feeBps: real, slippageBps: real): real {
    nav - (if nav < 0.0 then -nav else nav) * size * (feeBps + slippageBps * size) / 10_000.0
  }

  /** The NAV once the bar itself has been carried at the new position. */
  function CarriedNav(nav: real, position: real, open: real, close: real): real
    requires open > 0.0
  {
    nav + nav * position * (close - open) / open
  }

  /** The size traded when a position is changed. */
  function Size(from: real, to: real): real {
    if to < from then from - to else to - from
  }

  /** Bar 0 starts flat with 10000; every later bar carries the gap, fills the last signal and carries the bar. */
  ghost predicate NavLaw(points: seq<Point>, bars: seq<Bar>, feeBps: real, slippageBps: real, k: nat)
    requires ValidBars(bars) && k < |points| <= |bars|
  {
    if k == 0 then points[0].nav == 10_000.0
    else
      var before, p := points[k - 1], points[k];
      var gapped := GappedNav(before.nav, before.position, bars[k - 1].close, bars[k].open);
      var charged := ChargedNav(gapped, Size(before.position, p.position), feeBps, slippageBps);
      && p.nav == CarriedNav(charged, p.position, bars[k].open, bars[k].close)
      && InBounds(gapped) && InBounds(charged) && InBounds(p.nav)
  }

  predicate InBounds(nav: real) {
    -1_000_000_000_000_000_000.0 <= nav <= 1_000_000_000_000_000_000.0
  }

  /** What a point shows. */
  ghost predicate Shows(points: seq<Point>, bars: seq<Bar>, signals: seq<real>, leverage: real, k: nat)
    requires |points| == |bars| == |signals| && k < |points|
  {
    var p := points[k];
    && p.bar == k && p.timestamp == bars[k].timestamp && p.close == bars[k].close
    && p.position == (if k == 0 then 0.0 else signals[k - 1] * leverage)
    && (forall i :: 0 <= i <= k ==> points[i].nav <= p.peak)
    && (exists i :: 0 <= i <= k && points[i].nav == p.peak)
    && p.peak != 0.0 && p.drawdown == (p.peak - p.nav) / p.peak
  }

  /** Bars at which the position differs from the bar before. */
  ghost function Changes(points: seq<Point>): set<int> {
    set k: int | 0 < k < |points| && Differs(points, k)
  }

  predicate Differs(points: seq<Point>, k: int) {
    0 < k < |points| && points[k].position != points[k - 1].position
  }

  /** The worker's signals and the positions they ask for stay within a thousand. */
  predicate SignalsInRange(signals: seq<real>, leverage: real) {
    forall k :: 0 <= k < |signals| ==>
      -1000.0 <= signals[k] <= 1000.0 && -1000.0 <= signals[k] * leverage <= 1000.0
  }

  /** The whole trace. */
  ghost predicate IsReplay(trace: Trace, id: string, bars: seq<Bar>, leverage: real, feeBps: real, slippageBps: real,
                           signals: seq<real>)
    requires ValidBars(bars)
  {
    && trace.scenarioId == id && trace.bars == |bars| && |trace.points| == |bars| == |signals|
    && trace.tradeCount == |Changes(trace.points)| && SignalsInRange(signals, leverage)
    && (forall k :: 0 <= k < |bars| ==>
          Shows(trace.points, bars, signals, leverage, k) && NavLaw(trace.points, bars, feeBps, slippageBps, k))
  }

  predicate LeverageOk(config: Config) {
    config.leverage.Some? && -1000.0 <= config.leverage.value <= 1000.0
  }

  predicate RatesOk(config: Config) {
    && config.feeBps.Some? && 0.0 <= config.feeBps.value <= 10_000.0
    && config.slippageBps.Some? && 0.0 <= config.slippageBps.value <= 10_000.0
  }

  // ---------- one bar ----------

  lemma {:induction false} GapIsGrowth(nav: real, position: real, previousClose: real, bar: Bar)
    requires previousClose > 0.0
    ensures Grown(nav, position, GapReturn(previousClose, bar)) == GappedNav(nav, position, previousClose, bar.open)
  {
    var gap := bar.open - previousClose;
    assert nav * (1.0 + position * (gap / previousClose)) == nav + nav * position * gap / previousClose;
  }

  lemma {:induction false} BarIsGrowth(nav: real, position: real, bar: Bar)
    requires bar.open > 0.0
    ensures Grown(nav, position, BarReturn(bar)) == CarriedNav(nav, position, bar.open, bar.close)
  {
    var move := bar.close - bar.open;
    assert nav * (1.0 + position * (move / bar.open)) == nav + nav * position * move / bar.open;
  }

  lemma {:induction false} CostIsCharge(nav: real, from: real, to: real, feeBps: real, slippageBps: real)
    ensures ApplyTradeCosts(nav, from, to, feeBps, slippageBps) == ChargedNav(nav, Size(from, to), feeBps, slippageBps)
  {
    var n, size := Abs(nav), Size(from, to);
    assert Abs(to - from) == size;
    assert n * size * feeBps / 10_000.0 + n * size * slippageBps * size / 10_000.0 ==
      n * size * (feeBps + slippageBps * size) / 10_000.0;
  }

  /** A fill in the terms of the reference. */
  lemma {:induction false} FillIsLaw(cfg: Settings, bar: Bar, st: State)
    requires st.previousClose > 0.0 && bar.open > 0.0
    ensures var gapped := GappedNav(st.nav, st.position, st.previousClose, bar.open);
      var charged := ChargedNav(gapped, Size(st.position, st.pending), cfg.feeBps, cfg.slippageBps);
      var nav := CarriedNav(charged, st.pending, bar.open, bar.close);
      Fill(cfg, bar, st) ==
        if InBounds(gapped) && InBounds(charged) && InBounds(nav) then
          Ok(st.(nav := nav, position := st.pending, trades := st.trades + if st.pending != st.position then 1 else 0))
        else Err(NonfiniteValue)
  {
    hide Grown, GappedNav, CarriedNav, ApplyTradeCosts, GapReturn, BarReturn;
    var gapped := Grown(st.nav, st.position, GapReturn(st.previousClose, bar));
    GapIsGrowth(st.nav, st.position, st.previousClose, bar);
    CostIsCharge(gapped, st.position, st.pending, cfg.feeBps, cfg.slippageBps);
    BarIsGrowth(ChargedNav(gapped, Size(st.position, st.pending), cfg.feeBps, cfg.slippageBps), st.pending, bar);
    NothingTraded(gapped, cfg.feeBps, cfg.slippageBps);
  }

  lemma {:induction false} NothingTraded(nav: real, feeBps: real, slippageBps: real)
    ensures ChargedNav(nav, 0.0, feeBps, slippageBps) == nav
  {
  }

  // ---------- a run ----------

  /** The first `k` points of a run are those of the trace. */
  ghost predicate Matches(run: Result<Progress, ReasonCode>, points: seq<Point>, bars: seq<Bar>, signals: seq<real>,
                          leverage: real, k: nat)
    requires k <= |points| == |bars| == |signals|
  {
    && run.Ok? && run.value.points == points[..k]
    && (k > 0 ==>
          var st, p := run.value.state, points[k - 1];
          && st.nav == p.nav && st.peak == p.peak && st.position == p.position
          && st.pending == signals[k - 1] * leverage && st.previousClose == bars[k - 1].close)
  }

  lemma {:induction false} FirstMatches(cfg: Settings, points: seq<Point>, bars: seq<Bar>, signals: seq<real>)
    requires Inputs(bars, signals) && |points| == |bars| && SignalsInRange(signals, cfg.leverage)
    requires Shows(points, bars, signals, cfg.leverage, 0) && NavLaw(points, bars, cfg.feeBps, cfg.slippageBps, 0)
    ensures Matches(Run(cfg, bars, signals, 1), points, bars, signals, cfg.leverage, 1)
  {
    assert points[0].peak == points[0].nav;
    assert [] + [points[0]] == points[..1];
  }

  lemma {:induction false} NextMatches(cfg: Settings, points: seq<Point>, bars: seq<Bar>, signals: seq<real>, k: nat)
    requires Inputs(bars, signals) && |points| == |bars| && SignalsInRange(signals, cfg.leverage) && 0 < k < |bars|
    requires Matches(Run(cfg, bars, signals, k), points, bars, signals, cfg.leverage, k)
    requires Shows(points, bars, signals, cfg.leverage, k - 1) && Shows(points, bars, signals, cfg.leverage, k)
    requires NavLaw(points, bars, cfg.feeBps, cfg.slippageBps, k) && InBounds(points[k - 1].peak)
    ensures Matches(Run(cfg, bars, signals, k + 1), points, bars, signals, cfg.leverage, k + 1)
    ensures InBounds(points[k].peak)
  {
    hide Fill, GappedNav, ChargedNav, CarriedNav;
    var st := Run(cfg, bars, signals, k).value.state;
    FillIsLaw(cfg, bars[k], st);
    PeakStep(points, bars, signals, cfg.leverage, k);
    assert points[..k] + [points[k]] == points[..k + 1];
  }

  lemma {:induction false} PeakStep(points: seq<Point>, bars: seq<Bar>, signals: seq<real>, leverage: real, k: nat)
    requires |points| == |bars| == |signals| && 0 < k < |points|
    requires Shows(points, bars, signals, leverage, k - 1) && Shows(points, bars, signals, leverage, k)
    ensures points[k].peak == if points[k].nav > points[k - 1].peak then points[k].nav else points[k - 1].peak
  {
    var i :| 0 <= i <= k && points[i].nav == points[k].peak;
    var j :| 0 <= j <= k - 1 && points[j].nav == points[k - 1].peak;
    assert points[i].nav <= if i < k then points[k - 1].peak else points[k].nav;
    assert points[j].nav <= points[k].peak && points[k].nav <= points[k].peak;
  }

  lemma {:induction false} RunMatches(cfg: Settings, points: seq<Point>, bars: seq<Bar>, signals: seq<real>, k: nat)
    requires Inputs(bars, signals) && |points| == |bars| && SignalsInRange(signals, cfg.leverage) && 0 < k <= |bars|
    requires forall i :: 0 <= i < k ==>
      Shows(points, bars, signals, cfg.leverage, i) && NavLaw(points, bars, cfg.feeBps, cfg.slippageBps, i)
    ensures Matches(Run(cfg, bars, signals, k), points, bars, signals, cfg.leverage, k) && InBounds(points[k - 1].peak)
  {
    hide Run, Matches;
    if k == 1 {
      FirstMatches(cfg, points, bars, signals);
      FirstPeak(points, bars, signals, cfg.leverage);
    } else {
      RunMatches(cfg, points, bars, signals, k - 1);
      NextMatches(cfg, points, bars, signals, k - 1);
    }
  }

  lemma {:induction false} FirstPeak(points: seq<Point>, bars: seq<Bar>, signals: seq<real>, leverage: real)
    requires |points| == |bars| == |signals| && points != [] && Shows(points, bars, signals, leverage, 0)
    ensures points[0].peak == points[0].nav
  {
  }

  // ---------- the other way round ----------

  lemma {:induction false} SignalsChecked(cfg: Settings, bars: seq<Bar>, signals: seq<real>, k: nat)
    requires Inputs(bars, signals) && k <= |bars| && Run(cfg, bars, signals, k).Ok?
    ensures SignalsInRange(signals[..k], cfg.leverage)
  {
    hide Fill, PointOf;
    if k > 0 {
      SignalsChecked(cfg, bars, signals, k - 1);
      assert signals[..k] == signals[..k - 1] + [signals[k - 1]];
    }
  }

  lemma {:induction false} RunShows(cfg: Settings, bars: seq<Bar>, signals: seq<real>, k: nat)
    requires Inputs(bars, signals) && k < |bars| && Run(cfg, bars, signals, |bars|).Ok?
    ensures Shows(Run(cfg, bars, signals, |bars|).value.points, bars, signals, cfg.leverage, k)
  {
    hide Run;
    PositionIsPreviousSignal(cfg, bars, signals, |bars|, k);
    PeakIsRunningMaximum(cfg, bars, signals, |bars|, k);
    DrawdownIsRatio(cfg, bars, signals, |bars|, k);
    PointState(cfg, bars, signals, |bars|, k);
  }

  lemma {:induction false} RunObeys(cfg: Settings, bars: seq<Bar>, signals: seq<real>, k: nat)
    requires Inputs(bars, signals) && k < |bars| && Run(cfg, bars, signals, |bars|).Ok?
    ensures NavLaw(Run(cfg, bars, signals, |bars|).value.points, bars, cfg.feeBps, cfg.slippageBps, k)
  {
    hide Run, Fill, GappedNav, ChargedNav, CarriedNav, Size;
    var points := Run(cfg, bars, signals, |bars|).value.points;
    PointState(cfg, bars, signals, |bars|, k);
    if k > 0 {
      PointState(cfg, bars, signals, |bars|, k - 1);
      PositionIsPreviousSignal(cfg, bars, signals, |bars|, k);
      PositionIsPreviousSignal(cfg, bars, signals, |bars|, k - 1);
      LastFill(cfg, bars, signals, k);
      FillIsLaw(cfg, bars[k], Run(cfg, bars, signals, k).value.state);
    }
  }

  lemma {:induction false} ChangesCounted(points: seq<Point>)
    requires forall k :: 0 <= k < |points| ==> points[k].bar >= 0
    ensures ChangesFrom(points, 0) == |Changes(points)|
  {
    hide Changes;
    if |points| >= 2 {
      ChangesCounted(points[..|points| - 1]);
    }
    ChangesSnoc(points);
  }

  lemma {:induction false} ChangesSnoc(points: seq<Point>)
    ensures |points| < 2 ==> Changes(points) == {}
    ensures |points| >= 2 ==>
      var n := |points| - 1;
      |Changes(points)| == |Changes(points[..n])| + if points[n].position != points[n - 1].position then 1 else 0
  {
    if |points| >= 2 {
      var n := |points| - 1;
      var front, rest := points[..n], if points[n].position != points[n - 1].position then {n} else {};
      assert forall k :: 0 < k < n ==> (Differs(points, k) <==> Differs(front, k));
      assert Differs(points, n) <==> rest == {n};
      assert Changes(points) == Changes(front) + rest && Changes(front) !! rest;
    }
  }

  /** A completed replay is the trace described; a trace so described is what the replay gives. */
  lemma {:induction false} CompletedExactly(cfg: Settings, id: string, bars: seq<Bar>, signals: seq<real>, trace: Trace)
    requires Inputs(bars, signals)
    ensures IsReplay(trace, id, bars, cfg.leverage, cfg.feeBps, cfg.slippageBps, signals) <==>
      && Run(cfg, bars, signals, |bars|).Ok?
      && trace == Trace(id, |bars|, Run(cfg, bars, signals, |bars|).value.state.trades,
                        Run(cfg, bars, signals, |bars|).value.points)
  {
    hide Run, Shows, NavLaw, Changes, ChangesFrom;
    var n := |bars|;
    if IsReplay(trace, id, bars, cfg.leverage, cfg.feeBps, cfg.slippageBps, signals) {
      RunMatches(cfg, trace.points, bars, signals, n);
      assert trace.points[..n] == trace.points;
    }
    if Run(cfg, bars, signals, n).Ok? {
      SignalsChecked(cfg, bars, signals, n);
      assert signals[..n] == signals;
      TradesAreChanges(cfg, bars, signals, n);
      var points := Run(cfg, bars, signals, n).value.points;
      forall k: nat | k < n
        ensures Shows(points, bars, signals, cfg.leverage, k) && NavLaw(points, bars, cfg.feeBps, cfg.slippageBps, k)
      {
        RunShows(cfg, bars, signals, k);
        RunObeys(cfg, bars, signals, k);
      }
      ChangesCounted(points);
    }
  }

  /** Exactly when a replay succeeds, and with what trace: one signal for every bar, leverage and rates present and in
      range, the one fill model, no raw float, and the trace described above within its bounds. */
  lemma {:induction false} ReplayExactly(id: string, bars: seq<Bar>, config: Config, signals: seq<real>, trace: Trace)
    requires ValidBars(bars)
    ensures ReplayOf(id, bars, config, signals) == Ok(trace) <==>
      && LeverageOk(config) && RatesOk(config) && config.fillModel == "next_bar_open" && !config.rawFloat
      && IsReplay(trace, id, bars, config.leverage.value, config.feeBps.value, config.slippageBps.value, signals)
  {
    hide Run, IsReplay;
    if LeverageOk(config) && RatesOk(config) && |signals| == |bars| {
      var cfg := Settings(config.leverage.value, config.feeBps.value, config.slippageBps.value);
      CompletedExactly(cfg, id, bars, signals, trace);
    } else if LeverageOk(config) && RatesOk(config) {
      CountDiffers(trace, id, bars, config, signals);
    }
  }

  lemma {:induction false} CountDiffers(trace: Trace, id: string, bars: seq<Bar>, config: Config, signals: seq<real>)
    requires ValidBars(bars) && |signals| != |bars| && LeverageOk(config) && RatesOk(config)
    ensures !IsReplay(trace, id, bars, config.leverage.value, config.feeBps.value, config.slippageBps.value, signals)
  {
  }

  /** The reason of every refusal, in the order of the checks. */
  lemma {:induction false} RefusedExactly(id: string, bars: seq<Bar>, config: Config, signals: seq<real>)
    requires ValidBars(bars)
    ensures var result := ReplayOf(id, bars, config, signals);
      && (|signals| != |bars| ==> result == Err(SchemaInvalid))
      && (|signals| == |bars| && !(LeverageOk(config) && RatesOk(config)) ==> result == Err(NonfiniteValue))
      && (|signals| == |bars| && LeverageOk(config) && RatesOk(config) && config.fillModel != "next_bar_open" ==>
            result == Err(SchemaInvalid))
      && (|signals| == |bars| && config.fillModel == "next_bar_open" && result.Err? ==> result == Err(NonfiniteValue))
  {
    hide StepBar;
    if |signals| == |bars| {
      match ReadSettings(config)
      case Err(_) =>
      case Ok(cfg) => OnlyNonfinite(cfg, bars, signals, |bars|);
    }
  }

  lemma {:induction false} OnlyNonfinite(cfg: Settings, bars: seq<Bar>, signals: seq<real>, k: nat)
    requires Inputs(bars, signals) && k <= |bars|
    ensures Run(cfg, bars, signals, k).Err? ==> Run(cfg, bars, signals, k) == Err(NonfiniteValue)
  {
    if k > 0 { OnlyNonfinite(cfg, bars, signals, k - 1); }
  }
}
