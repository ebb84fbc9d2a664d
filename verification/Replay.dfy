/** The deterministic replay of `engine_adapter/deterministic.py`.

    `Decimal` arithmetic is taken as exact real arithmetic.  The worker's signals are an arbitrary
    sequence of reals. */
module Replay {
  import opened Wrappers
  import opened Models

  const MAX_SIGNAL: real := 1000.0
  const MAX_LEVERAGE: real := 1000.0
  const MAX_POSITION: real := 1000.0
  const MAX_NAV: real := 1_000_000_000_000_000_000.0
  const MAX_BPS: real := 10_000.0
  const BPS: real := 10_000.0
  const START_NAV: real := 10_000.0

  /** A parsed CSV row; None is a price that is not finite. */
  datatype Row = Row(timestamp: string, open: Option<real>, high: Option<real>, low: Option<real>, close: Option<real>)

  datatype Bar = Bar(i: nat, timestamp: string, open: real, high: real, low: real, close: real)

  /** `config.json` merged with the spec's costs; None is a field that is no finite decimal. */
  datatype Config = Config(leverage: Option<real>, feeBps: Option<real>, slippageBps: Option<real>, fillModel: string,
                           rawFloat: bool)    // some value is a float, which the input hash refuses

  datatype Settings = Settings(leverage: real, feeBps: real, slippageBps: real)

  datatype State = State(nav: real, peak: real, position: real, pending: real, trades: nat, previousClose: real)

  datatype Point = Point(bar: nat, timestamp: string, close: real, nav: real, peak: real, drawdown: real,
                         position: real)

  datatype Trace = Trace(scenarioId: string, bars: nat, tradeCount: nat, points: seq<Point>)

  function Abs(x: real): real {
    if x < 0.0 then -x else x
  }

  function Larger(x: real, y: real): real {
    if x > y then x else y
  }

  predicate Bounded(x: real, limit: real) {
    Abs(x) <= limit
  }

  // ---------- reading the scenario and the configuration ----------

  predicate GoodPrice(price: Option<real>) {
    price.Some? && price.value > 0.0
  }

  predicate GoodRow(row: Row) {
    GoodPrice(row.open) && GoodPrice(row.high) && GoodPrice(row.low) && GoodPrice(row.close)
  }

  function BarOf(row: Row, i: nat): Bar
    requires GoodRow(row)
  {
    Bar(i, row.timestamp, row.open.value, row.high.value, row.low.value, row.close.value)
  }

  predicate ValidBars(bars: seq<Bar>) {
    bars != [] && forall k :: 0 <= k < |bars| ==> bars[k].i == k && bars[k].open > 0.0 && bars[k].close > 0.0
  }

  method ReadBars(rows: seq<Row>) returns (result: Result<seq<Bar>, ReasonCode>)
    ensures result.Ok? ==> ValidBars(result.value) && |result.value| == |rows|
    ensures result.Ok? <==> rows != [] && forall k :: 0 <= k < |rows| ==>
      && rows[k].open.Some? && rows[k].open.value > 0.0 && rows[k].high.Some? && rows[k].high.value > 0.0
      && rows[k].low.Some? && rows[k].low.value > 0.0 && rows[k].close.Some? && rows[k].close.value > 0.0
    ensures result.Ok? ==> forall k :: 0 <= k < |rows| ==>
      var bar := result.value[k];
      && bar.i == k && bar.timestamp == rows[k].timestamp && Some(bar.open) == rows[k].open
      && Some(bar.high) == rows[k].high && Some(bar.low) == rows[k].low && Some(bar.close) == rows[k].close
    ensures result.Err? ==> result.error == DataMissing
  {
    var bars: seq<Bar> := [];
    for i := 0 to |rows|
      invariant |bars| == i
      invariant forall k :: 0 <= k < i ==> GoodRow(rows[k]) && bars[k] == BarOf(rows[k], k)
    {
      if !GoodRow(rows[i]) {
        return Err(DataMissing);
      }
      bars := bars + [BarOf(rows[i], i)];
    }
    result := if bars == [] then Err(DataMissing) else Ok(bars);
  }

  predicate GoodBps(bps: Option<real>) {
    bps.Some? && 0.0 <= bps.value <= MAX_BPS
  }

  function ReadSettings(config: Config): Result<Settings, ReasonCode> {
    if config.leverage.None? || !Bounded(config.leverage.value, MAX_LEVERAGE) then Err(NonfiniteValue)
    else if !GoodBps(config.feeBps) || !GoodBps(config.slippageBps) then Err(NonfiniteValue)
    else if config.fillModel != "next_bar_open" then Err(SchemaInvalid)
    else Ok(Settings(config.leverage.value, config.feeBps.value, config.slippageBps.value))
  }

  // ---------- one bar ----------

  function ApplyTradeCosts(nav: real, from: real, to: real, feeBps: real, slippageBps: real): real {
    var size := Abs(to - from);
    if size == 0.0 || (feeBps == 0.0 && slippageBps == 0.0) then nav
    else
      var notional := Abs(nav) * size;
      nav - notional * feeBps / BPS - notional * slippageBps * size / BPS
  }

  function GapReturn(previousClose: real, bar: Bar): real
    requires previousClose > 0.0
  {
    (bar.open - previousClose) / previousClose
  }

  function BarReturn(bar: Bar): real
    requires bar.open > 0.0
  {
    (bar.close - bar.open) / bar.open
  }

  function GrowthFactor(position: real, ret: real): real {
    1.0 + position * ret
  }

  function Grown(nav: real, position: real, ret: real): real {
    nav * GrowthFactor(position, ret)
  }

  /** The NAV after moving in proportion to a price. */
  function Rescaled(nav: real, from: real, to: real): real
    requires from > 0.0
  {
    nav * (to / from)
  }

  function Drawdown(st: State): real {
    if st.peak == 0.0 then 0.0 else (st.peak - st.nav) / st.peak
  }

  /** Fill at the open of a bar after the first: the gap is carried at the old position, the
      pending order is filled and charged, and the bar itself is carried at the new position. */
  function Fill(cfg: Settings, bar: Bar, st: State): Result<State, ReasonCode>
    requires st.previousClose > 0.0 && bar.open > 0.0
  {
    var gapped := Grown(st.nav, st.position, GapReturn(st.previousClose, bar));
    var trade := st.pending != st.position;
    var charged :=
      if trade then ApplyTradeCosts(gapped, st.position, st.pending, cfg.feeBps, cfg.slippageBps) else gapped;
    var closed := Grown(charged, st.pending, BarReturn(bar));
    if !Bounded(gapped, MAX_NAV) || !Bounded(charged, MAX_NAV) || !Bounded(closed, MAX_NAV) then Err(NonfiniteValue)
    else Ok(st.(nav := closed, position := st.pending, trades := st.trades + if trade then 1 else 0))
  }

  function Desired(signal: real, leverage: real): real {
    signal * leverage
  }

  function StepBar(cfg: Settings, index: nat, bar: Bar, signal: real, st: State): Result<State, ReasonCode>
    requires st.previousClose > 0.0 && bar.open > 0.0
  {
    var desired := Desired(signal, cfg.leverage);
    if !Bounded(signal, MAX_SIGNAL) || !Bounded(desired, MAX_POSITION) then Err(NonfiniteValue)
    else
      match if index > 0 then Fill(cfg, bar, st) else Ok(st)
      case Err(e) => Err(e)
      case Ok(filled) =>
        var peak := Larger(filled.nav, filled.peak);
        if !Bounded(peak, MAX_NAV) then Err(NonfiniteValue)
        else Ok(filled.(peak := peak, pending := desired, previousClose := bar.close))
  }

  function PointOf(bar: Bar, st: State): Point {
    Point(bar.i, bar.timestamp, bar.close, st.nav, st.peak, Drawdown(st), st.position)
  }

  // ---------- a whole run ----------

  datatype Progress = Progress(state: State, points: seq<Point>)

  predicate Inputs(bars: seq<Bar>, signals: seq<real>) {
    ValidBars(bars) && |signals| == |bars|
  }

  /** The first `k` bars of a replay. */
  function Run(cfg: Settings, bars: seq<Bar>, signals: seq<real>, k: nat): (r: Result<Progress, ReasonCode>)
    requires Inputs(bars, signals) && k <= |bars|
    ensures r.Ok? ==> |r.value.points| == k && r.value.state.previousClose > 0.0
  {
    if k == 0 then Ok(Progress(State(START_NAV, START_NAV, 0.0, 0.0, 0, bars[0].close), []))
    else
      match Run(cfg, bars, signals, k - 1)
      case Err(e) => Err(e)
      case Ok(before) =>
        match StepBar(cfg, k - 1, bars[k - 1], signals[k - 1], before.state)
        case Err(e) => Err(e)
        case Ok(st) => Ok(Progress(st, before.points + [PointOf(bars[k - 1], st)]))
  }

  function ReplayOf(scenarioId: string, bars: seq<Bar>, config: Config, signals: seq<real>): Result<Trace, ReasonCode>
    requires ValidBars(bars)
  {
    if |signals| != |bars| then Err(SchemaInvalid)
    else
      match ReadSettings(config)
      case Err(e) => Err(e)
      case Ok(cfg) =>
        match Run(cfg, bars, signals, |bars|)
        case Err(e) => Err(e)
        case Ok(done) => if config.rawFloat then Err(NonfiniteValue)
          else Ok(Trace(scenarioId, |bars|, done.state.trades, done.points))
  }

  /** The part of the loop body that is skipped at bar 0. */
  method FillAtOpen(cfg: Settings, bar: Bar, st: State) returns (result: Result<State, ReasonCode>)
    requires st.previousClose > 0.0 && bar.open > 0.0
    ensures result == Fill(cfg, bar, st)
  {
    var nav, trades := Grown(st.nav, st.position, GapReturn(st.previousClose, bar)), st.trades;
    if !Bounded(nav, MAX_NAV) {
      return Err(NonfiniteValue);
    }
    if st.pending != st.position {
      trades := trades + 1;
      nav := ApplyTradeCosts(nav, st.position, st.pending, cfg.feeBps, cfg.slippageBps);
      if !Bounded(nav, MAX_NAV) {
        return Err(NonfiniteValue);
      }
    }
    nav := Grown(nav, st.pending, BarReturn(bar));
    if !Bounded(nav, MAX_NAV) {
      return Err(NonfiniteValue);
    }
    result := Ok(st.(nav := nav, position := st.pending, trades := trades));
  }

  /** The body of the loop of `_build_trace`. */
  method Advance(cfg: Settings, index: nat, bar: Bar, signal: real, before: State)
    returns (result: Result<State, ReasonCode>)
    requires before.previousClose > 0.0 && bar.open > 0.0
    ensures result == StepBar(cfg, index, bar, signal, before)
  {
    var st, desired := before, Desired(signal, cfg.leverage);
    if !Bounded(signal, MAX_SIGNAL) || !Bounded(desired, MAX_POSITION) {
      return Err(NonfiniteValue);
    }
    if index > 0 {
      var filled := FillAtOpen(cfg, bar, st);
      if filled.Err? {
        return filled;
      }
      st := filled.value;
    }
    var peak := if st.nav > st.peak then st.nav else st.peak;
    if !Bounded(peak, MAX_NAV) {
      return Err(NonfiniteValue);
    }
    result := Ok(State(st.nav, peak, st.position, desired, st.trades, bar.close));
  }

  /** The loop of `_build_trace`, after the signal count check of `replay` and before the input hash. */
  method BuildTrace(scenarioId: string, bars: seq<Bar>, config: Config, signals: seq<real>)
    returns (result: Result<Trace, ReasonCode>)
    requires ValidBars(bars)
    ensures result == ReplayOf(scenarioId, bars, config, signals)
  {
    if |signals| != |bars| {
      return Err(SchemaInvalid);
    }
    var settings := ReadSettings(config);
    if settings.Err? {
      return Err(settings.error);
    }
    var cfg, points: seq<Point> := settings.value, [];
    var st := State(START_NAV, START_NAV, 0.0, 0.0, 0, bars[0].close);
    for index := 0 to |bars|
      invariant Run(cfg, bars, signals, index) == Ok(Progress(st, points))
    {
      var step := Advance(cfg, index, bars[index], signals[index], st);
      if step.Err? {
        FailureLasts(cfg, bars, signals, index + 1, |bars|);
        return Err(NonfiniteValue);
      }
      st := step.value;
      points := points + [PointOf(bars[index], st)];
    }
    if config.rawFloat {
      return Err(NonfiniteValue);
    }
    result := Ok(Trace(scenarioId, |bars|, st.trades, points));
  }

  lemma {:induction false} FailureLasts(cfg: Settings, bars: seq<Bar>, signals: seq<real>, k: nat, n: nat)
    requires Inputs(bars, signals) && k <= n <= |bars| && Run(cfg, bars, signals, k) == Err(NonfiniteValue)
    ensures Run(cfg, bars, signals, n) == Err(NonfiniteValue)
    decreases n
  {
    if k < n { FailureLasts(cfg, bars, signals, k, n - 1); }
  }

  // ---------- what a completed run satisfies ----------

  /** The position held during bar `k`: flat at bar 0, then the previous bar's signal. */
  function Held(leverage: real, signals: seq<real>, k: nat): real
    requires k <= |signals|
  {
    if k == 0 then 0.0 else Desired(signals[k - 1], leverage)
  }

  /** Adjacent position changes at bars numbered `from` or later. */
  function ChangesFrom(points: seq<Point>, from: int): nat {
    if |points| < 2 then 0
    else
      var last, previous := points[|points| - 1], points[|points| - 2];
      ChangesFrom(points[..|points| - 1], from)
      + if last.bar >= from && last.position != previous.position then 1 else 0
  }

  lemma {:induction false} RunPrefix(cfg: Settings, bars: seq<Bar>, signals: seq<real>, k: nat, n: nat)
    requires Inputs(bars, signals) && k <= n <= |bars| && Run(cfg, bars, signals, n).Ok?
    ensures Run(cfg, bars, signals, k).Ok?
    ensures Run(cfg, bars, signals, k).value.points == Run(cfg, bars, signals, n).value.points[..k]
    decreases n
  {
    if k < n { RunPrefix(cfg, bars, signals, k, n - 1); }
  }

  lemma {:induction false} RunState(cfg: Settings, bars: seq<Bar>, signals: seq<real>, k: nat)
    requires Inputs(bars, signals) && 0 < k <= |bars| && Run(cfg, bars, signals, k).Ok?
    ensures var done := Run(cfg, bars, signals, k).value;
      && done.points[k - 1] == PointOf(bars[k - 1], done.state)
      && done.state.position == Held(cfg.leverage, signals, k - 1)
      && done.state.pending == Held(cfg.leverage, signals, k)
      && done.state.previousClose == bars[k - 1].close
      && done.state.peak >= START_NAV && done.state.peak >= done.state.nav
      && (k == 1 ==> done.state.nav == START_NAV == done.state.peak)
  {
    if k > 1 { RunState(cfg, bars, signals, k - 1); }
  }

  /** Next-bar fills: bar 0 is flat and bar `j` holds the leveraged signal of bar `j - 1`. */
  lemma {:induction false} PositionIsPreviousSignal(cfg: Settings, bars: seq<Bar>, signals: seq<real>, n: nat, j: nat)
    requires Inputs(bars, signals) && j < n <= |bars| && Run(cfg, bars, signals, n).Ok?
    ensures var point := Run(cfg, bars, signals, n).value.points[j];
      point.bar == j && point.position == Held(cfg.leverage, signals, j)
  {
    RunPrefix(cfg, bars, signals, j + 1, n);
    RunState(cfg, bars, signals, j + 1);
  }

  /** No lookahead: completed runs that agree on bars 0..k and on the signals before bar k show the
      same points 0..k, whatever follows. */
  lemma {:induction false} NoLookahead(cfg: Settings, bars1: seq<Bar>, signals1: seq<real>, n1: nat,
                    bars2: seq<Bar>, signals2: seq<real>, n2: nat, k: nat)
    requires Inputs(bars1, signals1) && n1 <= |bars1| && Run(cfg, bars1, signals1, n1).Ok?
    requires Inputs(bars2, signals2) && n2 <= |bars2| && Run(cfg, bars2, signals2, n2).Ok?
    requires k < n1 && k < n2
    requires bars1[..k + 1] == bars2[..k + 1] && signals1[..k] == signals2[..k]
    ensures Run(cfg, bars1, signals1, n1).value.points[..k + 1] == Run(cfg, bars2, signals2, n2).value.points[..k + 1]
  {
    RunPrefix(cfg, bars1, signals1, k + 1, n1);
    RunPrefix(cfg, bars2, signals2, k + 1, n2);
    assert bars1[k] == bars1[..k + 1][k] == bars2[k] && bars1[0] == bars1[..k + 1][0] == bars2[0];
    assert bars1[..k] == bars1[..k + 1][..k] == bars2[..k];
    SameStates(cfg, bars1, signals1, bars2, signals2, k);
    PointIgnoresSignal(cfg, k, bars1[k], signals1[k], signals2[k], Run(cfg, bars1, signals1, k).value.state);
  }

  lemma {:induction false} PointIgnoresSignal(cfg: Settings, index: nat, bar: Bar, signal1: real, signal2: real,
                                              st: State)
    requires st.previousClose > 0.0 && bar.open > 0.0
    requires StepBar(cfg, index, bar, signal1, st).Ok? && StepBar(cfg, index, bar, signal2, st).Ok?
    ensures PointOf(bar, StepBar(cfg, index, bar, signal1, st).value) ==
      PointOf(bar, StepBar(cfg, index, bar, signal2, st).value)
  {
  }

  lemma {:induction false} SameStates(cfg: Settings, bars1: seq<Bar>, signals1: seq<real>,
                                      bars2: seq<Bar>, signals2: seq<real>, k: nat)
    requires Inputs(bars1, signals1) && Inputs(bars2, signals2) && k <= |bars1| && k <= |bars2|
    requires bars1[..k] == bars2[..k] && signals1[..k] == signals2[..k] && bars1[0] == bars2[0]
    ensures Run(cfg, bars1, signals1, k) == Run(cfg, bars2, signals2, k)
    decreases k
  {
    if k > 0 {
      assert bars1[..k - 1] == bars1[..k][..k - 1] && bars2[..k - 1] == bars2[..k][..k - 1];
      assert signals1[..k - 1] == signals1[..k][..k - 1] && signals2[..k - 1] == signals2[..k][..k - 1];
      assert bars1[k - 1] == bars1[..k][k - 1] == bars2[k - 1];
      assert signals1[k - 1] == signals1[..k][k - 1] == signals2[k - 1];
      SameStates(cfg, bars1, signals1, bars2, signals2, k - 1);
    }
  }

  /** The trade counter is the number of adjacent position changes shown in the points. */
  lemma {:induction false} TradesAreChanges(cfg: Settings, bars: seq<Bar>, signals: seq<real>, k: nat)
    requires Inputs(bars, signals) && k <= |bars| && Run(cfg, bars, signals, k).Ok?
    ensures var done := Run(cfg, bars, signals, k).value;
      done.state.trades == ChangesFrom(done.points, 0)
  {
    if k > 0 {
      TradesAreChanges(cfg, bars, signals, k - 1);
      RunState(cfg, bars, signals, k);
      var points := Run(cfg, bars, signals, k).value.points;
      assert points[..k - 1] == Run(cfg, bars, signals, k - 1).value.points;
      if k > 1 { RunState(cfg, bars, signals, k - 1); }
    }
  }

  // ---------- running peak ----------

  /** The peak is the maximum NAV so far: it bounds every earlier NAV and one of them attains it. */
  lemma {:induction false} PeakIsRunningMaximum(cfg: Settings, bars: seq<Bar>, signals: seq<real>, n: nat, j: nat)
    requires Inputs(bars, signals) && j < n <= |bars| && Run(cfg, bars, signals, n).Ok?
    ensures var points := Run(cfg, bars, signals, n).value.points;
      && (forall i :: 0 <= i <= j ==> points[i].nav <= points[j].peak)
      && (exists i :: 0 <= i <= j && points[i].nav == points[j].peak)
    decreases j
  {
    hide Run, StepBar;
    var points := Run(cfg, bars, signals, n).value.points;
    PointState(cfg, bars, signals, n, j);
    if j == 0 {
      assert points[0].nav == points[0].peak;
    } else {
      PeakIsRunningMaximum(cfg, bars, signals, n, j - 1);
      PointState(cfg, bars, signals, n, j - 1);
      var i :| 0 <= i <= j - 1 && points[i].nav == points[j - 1].peak;
      assert points[j].peak == points[j - 1].peak || points[j].peak == points[j].nav;
    }
  }

  /** Point `j` shows the state after bar `j`, whose peak is the larger of its NAV and the last peak. */
  lemma {:induction false} PointState(cfg: Settings, bars: seq<Bar>, signals: seq<real>, n: nat, j: nat)
    requires Inputs(bars, signals) && j < n <= |bars| && Run(cfg, bars, signals, n).Ok?
    ensures Run(cfg, bars, signals, j + 1).Ok?
    ensures var point, st := Run(cfg, bars, signals, n).value.points[j], Run(cfg, bars, signals, j + 1).value.state;
      && point == PointOf(bars[j], st)
      && (j == 0 ==> st.peak == st.nav == START_NAV)
      && (j > 0 ==> Run(cfg, bars, signals, j).Ok?)
      && (j > 0 ==> st.peak == Larger(st.nav, Run(cfg, bars, signals, j).value.state.peak))
  {
    RunPrefix(cfg, bars, signals, j + 1, n);
    RunState(cfg, bars, signals, j + 1);
    assert Run(cfg, bars, signals, n).value.points[j] == Run(cfg, bars, signals, j + 1).value.points[j];
    if j > 0 { RunPrefix(cfg, bars, signals, j, j + 1); }
  }

  /** The peak starts at 10000, so the zero-peak branch of the drawdown is never taken. */
  lemma {:induction false} DrawdownIsRatio(cfg: Settings, bars: seq<Bar>, signals: seq<real>, n: nat, j: nat)
    requires Inputs(bars, signals) && j < n <= |bars| && Run(cfg, bars, signals, n).Ok?
    ensures var point := Run(cfg, bars, signals, n).value.points[j];
      point.peak >= START_NAV && point.drawdown == (point.peak - point.nav) / point.peak >= 0.0
  {
    PointState(cfg, bars, signals, n, j);
    RunState(cfg, bars, signals, j + 1);
    var st := Run(cfg, bars, signals, j + 1).value.state;
    RatioNonNegative(st.peak - st.nav, st.peak);
  }

  lemma {:induction false} RatioNonNegative(a: real, b: real)
    requires a >= 0.0 && b > 0.0
    ensures a / b >= 0.0
  {
  }

  // ---------- trading costs, two runs ----------

  /** The share of the NAV left after trading `size` at the given rates. */
  function CostFactor(size: real, feeBps: real, slippageBps: real): real {
    1.0 - size * (feeBps + slippageBps * size) / BPS
  }

  /** No bar wipes out more than the whole NAV: both growth factors and the charge leave it non-negative. */
  ghost predicate Solvent(cfg: Settings, bars: seq<Bar>, signals: seq<real>, k: nat)
    requires Inputs(bars, signals) && 0 < k < |bars|
  {
    var from, to := Held(cfg.leverage, signals, k - 1), Held(cfg.leverage, signals, k);
    && GrowthFactor(from, GapReturn(bars[k - 1].close, bars[k])) >= 0.0
    && CostFactor(Abs(to - from), cfg.feeBps, cfg.slippageBps) >= 0.0
    && GrowthFactor(to, BarReturn(bars[k])) >= 0.0
  }

  lemma {:induction false} ChargeIsFactor(nav: real, from: real, to: real, feeBps: real, slippageBps: real)
    requires nav >= 0.0
    ensures ApplyTradeCosts(nav, from, to, feeBps, slippageBps) == nav * CostFactor(Abs(to - from), feeBps, slippageBps)
  {
  }

  lemma {:induction false} DearerFactorSmaller(size: real, fee1: real, slip1: real, fee2: real, slip2: real)
    requires size >= 0.0 && fee1 <= fee2 && slip1 <= slip2
    ensures CostFactor(size, fee2, slip2) <= CostFactor(size, fee1, slip1)
  {
  }

  /** What bar `k` of a completed run does to the NAV. */
  lemma {:induction false} LastFill(cfg: Settings, bars: seq<Bar>, signals: seq<real>, k: nat)
    requires Inputs(bars, signals) && 0 < k < |bars| && Run(cfg, bars, signals, k + 1).Ok?
    ensures Run(cfg, bars, signals, k).Ok?
    ensures var st := Run(cfg, bars, signals, k).value.state;
      && st.previousClose == bars[k - 1].close
      && st.position == Held(cfg.leverage, signals, k - 1) && st.pending == Held(cfg.leverage, signals, k)
      && Fill(cfg, bars[k], st).Ok?
      && Fill(cfg, bars[k], st).value.nav == Run(cfg, bars, signals, k + 1).value.state.nav
      && Fill(cfg, bars[k], st).value.trades == Run(cfg, bars, signals, k + 1).value.state.trades
  {
  }

  /** Cost monotonicity: while the dearer run stays solvent, raising fees or slippage never raises a NAV. */
  lemma {:induction false} DearerNeverRicher(cheap: Settings, dear: Settings, bars: seq<Bar>, signals: seq<real>,
                                             k: nat)
    requires Inputs(bars, signals) && k < |bars|
    requires Run(cheap, bars, signals, k + 1).Ok? && Run(dear, bars, signals, k + 1).Ok?
    requires cheap.leverage == dear.leverage && cheap.feeBps <= dear.feeBps && cheap.slippageBps <= dear.slippageBps
    requires forall i :: 0 < i <= k ==> Solvent(dear, bars, signals, i)
    ensures 0.0 <= Run(dear, bars, signals, k + 1).value.state.nav <= Run(cheap, bars, signals, k + 1).value.state.nav
  {
    if k == 0 {
      RunState(cheap, bars, signals, 1);
      RunState(dear, bars, signals, 1);
    } else {
      LastFill(cheap, bars, signals, k);
      LastFill(dear, bars, signals, k);
      DearerNeverRicher(cheap, dear, bars, signals, k - 1);
      assert Solvent(dear, bars, signals, k);
      var low, high := Run(dear, bars, signals, k).value.state, Run(cheap, bars, signals, k).value.state;
      DearerFill(cheap, dear, bars[k], high, low);
    }
  }

  lemma {:induction false} DearerFill(cheap: Settings, dear: Settings, bar: Bar, high: State, low: State)
    requires high.previousClose == low.previousClose > 0.0 && bar.open > 0.0
    requires high.position == low.position && high.pending == low.pending && 0.0 <= low.nav <= high.nav
    requires cheap.feeBps <= dear.feeBps && cheap.slippageBps <= dear.slippageBps
    requires GrowthFactor(low.position, GapReturn(low.previousClose, bar)) >= 0.0
    requires CostFactor(Abs(low.pending - low.position), dear.feeBps, dear.slippageBps) >= 0.0
    requires GrowthFactor(low.pending, BarReturn(bar)) >= 0.0
    requires Fill(cheap, bar, high).Ok? && Fill(dear, bar, low).Ok?
    ensures 0.0 <= Fill(dear, bar, low).value.nav <= Fill(cheap, bar, high).value.nav
  {
    var gap, ret := GapReturn(low.previousClose, bar), BarReturn(bar);
    var h, l := Grown(high.nav, low.position, gap), Grown(low.nav, low.position, gap);
    GrownMonotone(low.nav, high.nav, low.position, gap);
    DearerCharge(cheap, dear, h, l, low.position, low.pending);
    GrownMonotone(ApplyTradeCosts(l, low.position, low.pending, dear.feeBps, dear.slippageBps),
                  ApplyTradeCosts(h, low.position, low.pending, cheap.feeBps, cheap.slippageBps), low.pending, ret);
    FillNav(cheap, bar, high);
    FillNav(dear, bar, low);
  }

  lemma {:induction false} GrownMonotone(a: real, b: real, position: real, ret: real)
    requires 0.0 <= a <= b && GrowthFactor(position, ret) >= 0.0
    ensures 0.0 <= Grown(a, position, ret) <= Grown(b, position, ret)
  {
  }

  lemma {:induction false} DearerCharge(cheap: Settings, dear: Settings, h: real, l: real, from: real, to: real)
    requires 0.0 <= l <= h && cheap.feeBps <= dear.feeBps && cheap.slippageBps <= dear.slippageBps
    requires CostFactor(Abs(to - from), dear.feeBps, dear.slippageBps) >= 0.0
    ensures 0.0 <= ApplyTradeCosts(l, from, to, dear.feeBps, dear.slippageBps)
                <= ApplyTradeCosts(h, from, to, cheap.feeBps, cheap.slippageBps)
  {
    var size := Abs(to - from);
    DearerFactorSmaller(size, cheap.feeBps, cheap.slippageBps, dear.feeBps, dear.slippageBps);
    ChargeIsFactor(h, from, to, cheap.feeBps, cheap.slippageBps);
    ChargeIsFactor(l, from, to, dear.feeBps, dear.slippageBps);
    ProductMonotone(l, h, CostFactor(size, dear.feeBps, dear.slippageBps),
                    CostFactor(size, cheap.feeBps, cheap.slippageBps));
  }

  lemma {:induction false} FillNav(cfg: Settings, bar: Bar, st: State)
    requires st.previousClose > 0.0 && bar.open > 0.0 && Fill(cfg, bar, st).Ok?
    ensures Fill(cfg, bar, st).value.nav
         == Grown(ApplyTradeCosts(Grown(st.nav, st.position, GapReturn(st.previousClose, bar)),
                                  st.position, st.pending, cfg.feeBps, cfg.slippageBps),
                  st.pending, BarReturn(bar))
  {
  }

  lemma {:induction false} ProductMonotone(a: real, b: real, c: real, d: real)
    requires 0.0 <= a <= b && 0.0 <= c <= d
    ensures 0.0 <= a * c <= b * d
  {
  }

  /** The NAV after the fill at the open, with the charge taken off. */
  function Charged(cfg: Settings, bar: Bar, st: State): real
    requires st.previousClose > 0.0
  {
    ApplyTradeCosts(Grown(st.nav, st.position, GapReturn(st.previousClose, bar)), st.position, st.pending, cfg.feeBps,
                    cfg.slippageBps)
  }

  /** What trading `size` costs at the given rates, per unit of NAV. */
  function Rate(size: real, feeBps: real, slippageBps: real): real {
    size * (feeBps + slippageBps * size) / BPS
  }

  lemma {:induction false} ChargeIsRate(nav: real, from: real, to: real, feeBps: real, slippageBps: real)
    ensures ApplyTradeCosts(nav, from, to, feeBps, slippageBps) ==
      nav - Abs(nav) * Rate(Abs(to - from), feeBps, slippageBps)
  {
    var size, n := Abs(to - from), Abs(nav);
    assert n * (size * (feeBps + slippageBps * size) / BPS) ==
      n * size * feeBps / BPS + n * size * slippageBps * size / BPS;
  }

  lemma {:induction false} RateOrder(size: real, fee1: real, slip1: real, fee2: real, slip2: real)
    requires size >= 0.0 && fee1 <= fee2 && slip1 <= slip2
    ensures Rate(size, fee1, slip1) <= Rate(size, fee2, slip2)
    ensures Rate(size, fee1, slip1) < Rate(size, fee2, slip2) <==> size > 0.0 && (fee1 < fee2 || slip1 < slip2)
  {
    hide Rate;
    var slip := slip2 - slip1;
    var d := (fee2 - fee1) + slip * size;
    RateDifference(size, fee1, slip1, fee2, slip2);
    ProductSign(slip, size);
    ProductSign(size, d);
    assert size * d == size * ((fee2 - fee1) + (slip2 - slip1) * size);
    var gap := Rate(size, fee2, slip2) - Rate(size, fee1, slip1);
    assert gap * 10000.0 == size * d && d >= 0.0;
    assert d > 0.0 <==> fee1 < fee2 || slip * size > 0.0;
  }

  lemma {:induction false} RateDifference(size: real, fee1: real, slip1: real, fee2: real, slip2: real)
    ensures (Rate(size, fee2, slip2) - Rate(size, fee1, slip1)) * BPS == size * ((fee2 - fee1) + (slip2 - slip1) * size)
  {
    assert (slip2 - slip1) * size == slip2 * size - slip1 * size;
    var a, b := fee1 + slip1 * size, fee2 + slip2 * size;
    assert size * (b - a) == size * b - size * a;
    assert Rate(size, fee1, slip1) * BPS == size * a && Rate(size, fee2, slip2) * BPS == size * b;
  }

  lemma {:induction false} ProductSign(a: real, b: real)
    ensures a * b < 0.0 <==> (a < 0.0 && b > 0.0) || (a > 0.0 && b < 0.0)
    ensures a * b > 0.0 <==> (a < 0.0 && b < 0.0) || (a > 0.0 && b > 0.0)
  {
  }

  lemma {:induction false} ProductsDiffer(x: real, y: real, g: real)
    requires x <= y
    ensures x * g > y * g <==> x < y && g < 0.0
  {
    ProductSign(y - x, g);
    assert (y - x) * g == y * g - x * g;
  }

  /** Raising the rates lowers the charged NAV exactly when something is traded on a NAV that is not zero. */
  lemma {:induction false} ChargeOrder(nav: real, from: real, to: real, cheap: Settings, dear: Settings)
    requires cheap.feeBps <= dear.feeBps && cheap.slippageBps <= dear.slippageBps
    ensures ApplyTradeCosts(nav, from, to, dear.feeBps, dear.slippageBps) <=
      ApplyTradeCosts(nav, from, to, cheap.feeBps, cheap.slippageBps)
    ensures nav != 0.0 && from != to && (cheap.feeBps < dear.feeBps || cheap.slippageBps < dear.slippageBps) <==>
      ApplyTradeCosts(nav, from, to, dear.feeBps, dear.slippageBps) <
      ApplyTradeCosts(nav, from, to, cheap.feeBps, cheap.slippageBps)
  {
    hide ApplyTradeCosts, Rate;
    var size := Abs(to - from);
    ChargeIsRate(nav, from, to, cheap.feeBps, cheap.slippageBps);
    ChargeIsRate(nav, from, to, dear.feeBps, dear.slippageBps);
    RateOrder(size, cheap.feeBps, cheap.slippageBps, dear.feeBps, dear.slippageBps);
    var r, q := Rate(size, cheap.feeBps, cheap.slippageBps), Rate(size, dear.feeBps, dear.slippageBps);
    ProductSign(Abs(nav), q - r);
    assert Abs(nav) * (q - r) == Abs(nav) * q - Abs(nav) * r;
  }

  /** One bar from one state: the dearer run ends strictly richer exactly when the rates differ, something is
      traded on a NAV that is not zero, and the bar then takes more than the whole position. */
  lemma {:induction false} DearerRicherExactly(cheap: Settings, dear: Settings, bar: Bar, st: State)
    requires st.previousClose > 0.0 && bar.open > 0.0
    requires cheap.feeBps <= dear.feeBps && cheap.slippageBps <= dear.slippageBps
    requires Fill(cheap, bar, st).Ok? && Fill(dear, bar, st).Ok?
    ensures Fill(dear, bar, st).value.nav > Fill(cheap, bar, st).value.nav <==>
      && (cheap.feeBps < dear.feeBps || cheap.slippageBps < dear.slippageBps)
      && st.position != st.pending && Grown(st.nav, st.position, GapReturn(st.previousClose, bar)) != 0.0
      && GrowthFactor(st.pending, BarReturn(bar)) < 0.0
  {
    hide Fill, ApplyTradeCosts, GapReturn, BarReturn, GrowthFactor;
    FillNav(cheap, bar, st);
    FillNav(dear, bar, st);
    ChargeOrder(Grown(st.nav, st.position, GapReturn(st.previousClose, bar)), st.position, st.pending, cheap, dear);
    ProductsDiffer(Charged(dear, bar, st), Charged(cheap, bar, st), GrowthFactor(st.pending, BarReturn(bar)));
  }

  function CrashBars(): seq<Bar> {
    [Bar(0, "a", 4.0, 4.0, 4.0, 4.0), Bar(1, "b", 4.0, 4.0, 1.0, 1.0)]
  }

  lemma {:induction false} CrashFill(cfg: Settings)
    requires cfg == Settings(1.0, 0.0, 0.0) || cfg == Settings(1.0, 100.0, 0.0)
    ensures var filled := Fill(cfg, CrashBars()[1], State(START_NAV, START_NAV, 0.0, 2.0, 0, 4.0));
      filled.Ok? && filled.value.nav == if cfg.feeBps == 0.0 then -5000.0 else -4900.0
  {
    hide Grown, GapReturn, BarReturn, ApplyTradeCosts;
    CrashFacts();
  }

  lemma {:induction false} CrashFacts()
    ensures GapReturn(4.0, CrashBars()[1]) == 0.0 && BarReturn(CrashBars()[1]) == -0.75
    ensures Grown(START_NAV, 0.0, 0.0) == START_NAV && Grown(START_NAV, 2.0, -0.75) == -5000.0 &&
      Grown(9800.0, 2.0, -0.75) == -4900.0
    ensures ApplyTradeCosts(START_NAV, 0.0, 2.0, 0.0, 0.0) == START_NAV &&
      ApplyTradeCosts(START_NAV, 0.0, 2.0, 100.0, 0.0) == 9800.0
  {
  }

  lemma {:induction false} CrashOpens(cfg: Settings)
    requires cfg.leverage == 1.0
    ensures StepBar(cfg, 0, CrashBars()[0], 2.0, State(START_NAV, START_NAV, 0.0, 0.0, 0, 4.0)) ==
      Ok(State(START_NAV, START_NAV, 0.0, 2.0, 0, 4.0))
  {
    hide Fill;
  }

  /** Solvency is needed: a bar that turns the NAV negative makes the dearer run the richer one. */
  lemma {:induction false} InsolventCounterexample()
    ensures var bars, signals, free, dear := CrashBars(), [2.0, 2.0], Settings(1.0, 0.0, 0.0),
      Settings(1.0, 100.0, 0.0);
      && Run(free, bars, signals, 2).Ok? && Run(dear, bars, signals, 2).Ok?
      && Run(free, bars, signals, 2).value.state.nav == -5000.0
      && Run(dear, bars, signals, 2).value.state.nav == -4900.0
  {
    var bars, signals := CrashBars(), [2.0, 2.0];
    forall cfg | cfg == Settings(1.0, 0.0, 0.0) || cfg == Settings(1.0, 100.0, 0.0)
      ensures Run(cfg, bars, signals, 2).Ok?
      ensures Run(cfg, bars, signals, 2).value.state.nav == if cfg.feeBps == 0.0 then -5000.0 else -4900.0
    {
      hide Fill;
      CrashOpens(cfg);
      CrashFill(cfg);
      assert Run(cfg, bars, signals, 0) == Ok(Progress(State(START_NAV, START_NAV, 0.0, 0.0, 0, 4.0), []));
      assert Run(cfg, bars, signals, 1).value.state == State(START_NAV, START_NAV, 0.0, 2.0, 0, 4.0);
    }
  }

  /** Telescoping: while the position is 1 at every bar from `a` to `b`, no trade occurs and the NAV
      moves exactly as the close does, whatever the cost settings. */
  lemma {:induction false} FullyInvestedTelescopes(cfg: Settings, bars: seq<Bar>, signals: seq<real>, a: nat, b: nat)
    requires Inputs(bars, signals) && a <= b < |bars| && Run(cfg, bars, signals, b + 1).Ok?
    requires forall i :: a <= i <= b ==> Held(cfg.leverage, signals, i) == 1.0
    ensures Run(cfg, bars, signals, a + 1).Ok?
    ensures var first, last := Run(cfg, bars, signals, a + 1).value.state, Run(cfg, bars, signals, b + 1).value.state;
      last.nav == Rescaled(first.nav, bars[a].close, bars[b].close) && last.trades == first.trades
    decreases b
  {
    RunPrefix(cfg, bars, signals, a + 1, b + 1);
    if a < b {
      LastFill(cfg, bars, signals, b);
      FullyInvestedTelescopes(cfg, bars, signals, a, b - 1);
      var before := Run(cfg, bars, signals, b).value.state;
      assert Held(cfg.leverage, signals, b - 1) == 1.0 && Held(cfg.leverage, signals, b) == 1.0;
      FullFill(cfg, bars[b], before);
      Rescale(Run(cfg, bars, signals, a + 1).value.state.nav, bars[a].close, bars[b - 1].close, bars[b].close);
    } else {
      RunState(cfg, bars, signals, a + 1);
      RescaledSelf(Run(cfg, bars, signals, a + 1).value.state.nav, bars[a].close);
    }
  }

  lemma {:induction false} FullFill(cfg: Settings, bar: Bar, st: State)
    requires st.previousClose > 0.0 && bar.open > 0.0 && Fill(cfg, bar, st).Ok?
    requires st.position == 1.0 == st.pending
    ensures Fill(cfg, bar, st).value.nav == Rescaled(st.nav, st.previousClose, bar.close)
    ensures Fill(cfg, bar, st).value.trades == st.trades
  {
  }

  lemma {:induction false} RescaledSelf(nav: real, price: real)
    requires price > 0.0
    ensures Rescaled(nav, price, price) == nav
  {
  }

  lemma {:induction false} Rescale(nav: real, first: real, previous: real, close: real)
    requires first > 0.0 && previous > 0.0
    ensures Rescaled(Rescaled(nav, first, previous), previous, close) == Rescaled(nav, first, close)
  {
  }
}
