/**
 The deterministic backtest loop (src/backtest/engine.ts, src/backtest/validation.ts). Strategy and
 risk manager are one decision function with a state of its own, which sees what the two contexts
 are built from: the completed bars, the portfolio and the fills so far. The loop is a method
 proved against a fold over the bars.
 */
module Backtest {
  import opened Wrappers
  import opened Money
  import opened Orders
  import opened BacktestFill
  import P = Portfolio

  datatype Candle = Candle(timestampMs: int, open: Money, high: Money, low: Money, close: Money, baseVolume: Money)

  datatype Config = Config(
    symbol: Symbol,
    initialCash: Money,
    feeRate: int,
    slippage: int,
    halfSpread: int,
    priceTick: Money,
    quantityTick: Money,
    minOrderBase: Option<Money>,
    warmup: nat)

  // What the decision at a bar is made from.
  datatype View = View(bars: seq<Candle>, portfolio: P.Portfolio, fills: seq<Trade>)

  datatype Choice =
    | Hold
    | RiskRejected(side: Side, reason: string)
    | Approved(side: Side, quantity: Money, entryAnchor: Option<Money>)

  datatype Pending = Pending(side: Side, quantity: Money, signalBar: nat, entryAnchor: Option<Money>)

  datatype Trade = Trade(
    barIndex: nat,
    signalBarIndex: nat,
    side: Side,
    quantity: Money,
    price: Money,
    notional: Money,
    fee: Money,
    realizedPnl: Option<Money>)

  datatype Rejection = Rejection(barIndex: nat, side: Side, atDecision: bool)

  datatype Run<S> = Run(
    decider: S,
    portfolio: P.Portfolio,
    pending: Option<Pending>,
    trades: seq<Trade>,
    rejections: seq<Rejection>,
    equity: seq<Money>,
    peak: Money,
    maxExposure: Money)

  // ---- Validation ----

  predicate ValidConfig(cfg: Config) {
    && cfg.initialCash >= 0 && cfg.feeRate >= 0 && cfg.slippage >= 0
    && 0 <= cfg.halfSpread <= FRACTION_SCALE / 2
    && cfg.priceTick > 0 && cfg.quantityTick > 0 && (cfg.minOrderBase.Some? ==> cfg.minOrderBase.value >= 0)
  }

  predicate ValidCandle(c: Candle) {
    && c.timestampMs > 0
    && c.open > 0 && c.high > 0 && c.low > 0 && c.close > 0
    && c.low <= c.open <= c.high && c.low <= c.close <= c.high
    && c.baseVolume >= 0
  }

  predicate ValidCandles(candles: seq<Candle>) {
    && candles != []
    && (forall i :: 0 <= i < |candles| ==> ValidCandle(candles[i]))
    && (forall i, j :: 0 <= i < j < |candles| ==> candles[i].timestampMs < candles[j].timestampMs)
  }

  method ValidateCandles(candles: seq<Candle>) returns (ok: bool)
    ensures ok <==> ValidCandles(candles)
  {
    if candles == [] { return false; }
    for i := 0 to |candles|
      invariant forall k :: 0 <= k < i ==> ValidCandle(candles[k])
      invariant forall j, k :: 0 <= j < k < i ==> candles[j].timestampMs < candles[k].timestampMs
    {
      if i > 0 && candles[i].timestampMs <= candles[i - 1].timestampMs { return false; }
      if !ValidCandle(candles[i]) { return false; }
    }
    ok := true;
  }

  // ---- One bar ----

  datatype Outcome = FilledWhole(trade: Trade, portfolio: P.Portfolio) | Refused

  // The pending intent at the open of its fill bar: never re-sized, filled whole or refused.
  function ExecutePending(cfg: Config, p: P.Portfolio, open: Money, intent: Pending, bar: nat): Outcome
    requires ValidConfig(cfg)
  {
    var price := FillPrice(open, intent.side, cfg.slippage, cfg.halfSpread, cfg.priceTick);
    var notional := Mul(intent.quantity, price);
    var fee := FeeOn(notional, cfg.feeRate);
    if price <= 0 || intent.quantity <= 0 || !IsMultipleOf(intent.quantity, cfg.quantityTick) then Refused
    else if cfg.minOrderBase.Some? && intent.quantity < cfg.minOrderBase.value then Refused
    else if intent.side == Buy && notional + fee > p.DeployableQuote(cfg.symbol.quote) then Refused
    else if intent.side == Sell && intent.quantity > p.Held(cfg.symbol) then Refused
    else
      var pnl := if intent.side == Sell && cfg.symbol in p.positions
                 then Some(Mul(intent.quantity, price - p.positions[cfg.symbol].averageEntryPrice) - fee) else None;
      var next := P.ApplyFill(p, cfg.symbol, intent.side, intent.quantity, price, fee, intent.entryAnchor);
      if next.Failure? then Refused
      else FilledWhole(Trade(bar, intent.signalBar, intent.side, intent.quantity, price, notional, fee, pnl),
        next.value)
  }

  function ExecuteAt<S>(cfg: Config, candles: seq<Candle>, i: nat, run: Run<S>): Run<S>
    requires ValidConfig(cfg) && i < |candles|
  {
    if run.pending.None? then run
    else
      match ExecutePending(cfg, run.portfolio, candles[i].open, run.pending.value, i)
      case FilledWhole(trade, portfolio) =>
        run.(trades := run.trades + [trade], portfolio := portfolio, pending := None)
      case Refused =>
        run.(rejections := run.rejections + [Rejection(i, run.pending.value.side, false)], pending := None)
  }

  function DecideAt<S>(cfg: Config, decide: (S, View) -> (S, Choice), candles: seq<Candle>, i: nat, run: Run<S>): Run<S>
    requires i < |candles|
  {
    var (decider, choice) := decide(run.decider, View(candles[..i + 1], run.portfolio, run.trades));
    match choice
    case Hold => run.(decider := decider)
    case Approved(side, quantity, anchor) =>
      run.(decider := decider, pending := Some(Pending(side, quantity, i, anchor)))
    case RiskRejected(side, _) => run.(decider := decider, rejections := run.rejections + [Rejection(i, side, true)])
  }

  function Equity(cfg: Config, p: P.Portfolio, close: Money): Money {
    p.Cash(cfg.symbol.quote) + Mul(p.Held(cfg.symbol), close)
  }

  function MarkAt<S>(cfg: Config, candles: seq<Candle>, i: nat, run: Run<S>): Run<S>
    requires i < |candles|
  {
    var equity := Equity(cfg, run.portfolio, candles[i].close);
    var exposure := Mul(run.portfolio.Held(cfg.symbol), candles[i].close);
    run.(equity := run.equity + [equity],
         peak := if equity > run.peak then equity else run.peak,
         maxExposure := if exposure > run.maxExposure then exposure else run.maxExposure)
  }

  function Bar<S>(cfg: Config, decide: (S, View) -> (S, Choice), candles: seq<Candle>, i: nat, run: Run<S>): Run<S>
    requires ValidConfig(cfg) && i < |candles|
  {
    MarkAt(cfg, candles, i, DecideAt(cfg, decide, candles, i, ExecuteAt(cfg, candles, i, run)))
  }

  function Begin<S>(cfg: Config, decider: S): Run<S> {
    Run(decider, P.EMPTY.(cash := map[cfg.symbol.quote := cfg.initialCash]), None, [], [], [], cfg.initialCash, 0)
  }

  // The run after its first n bars.
  function Bars<S>(cfg: Config, decide: (S, View) -> (S, Choice), decider: S, candles: seq<Candle>, n: nat): Run<S>
    requires ValidConfig(cfg) && n <= |candles|
  {
    if n == 0 then Begin(cfg, decider) else Bar(cfg, decide, candles, n - 1, Bars(cfg, decide, decider, candles, n - 1))
  }

  // The loop over the bars, None when the input is refused.
  method RunBacktest<S>(
      cfg: Config, decide: (S, View) -> (S, Choice), decider: S, candles: seq<Candle>) returns (r: Option<Run<S>>)
    ensures r.Some? <==> ValidConfig(cfg) && ValidCandles(candles) && |candles| > cfg.warmup
    ensures r.Some? ==> r.value == Bars(cfg, decide, decider, candles, |candles|)
  {
    if !ValidConfig(cfg) { return None; }
    var ok := ValidateCandles(candles);
    if !ok || |candles| <= cfg.warmup { return None; }
    var run := Replay(cfg, decide, decider, candles);
    r := Some(run);
  }

  method Replay<S>(
      cfg: Config, decide: (S, View) -> (S, Choice), decider: S, candles: seq<Candle>) returns (run: Run<S>)
    requires ValidConfig(cfg)
    ensures run == Bars(cfg, decide, decider, candles, |candles|)
  {
    hide ValidConfig, Bar;
    run := Begin(cfg, decider);
    for i := 0 to |candles|
      invariant run == Bars(cfg, decide, decider, candles, i)
    {
      run := NextBar(cfg, decide, candles, i, run);
    }
  }

  method NextBar<S>(
      cfg: Config, decide: (S, View) -> (S, Choice), candles: seq<Candle>, i: nat, start: Run<S>) returns (run: Run<S>)
    requires ValidConfig(cfg) && i < |candles|
    ensures run == Bar(cfg, decide, candles, i, start)
  {
    hide ExecuteAt, DecideAt, MarkAt;
    run := Execute(cfg, candles, i, start);
    run := Decide(cfg, decide, candles, i, run);
    run := Mark(cfg, candles, i, run);
  }

  lemma OneMoreBar<S>(cfg: Config, decide: (S, View) -> (S, Choice), decider: S, candles: seq<Candle>, n: nat)
    requires ValidConfig(cfg) && n < |candles|
    ensures Bars(cfg, decide, decider, candles, n + 1)
        == Bar(cfg, decide, candles, n, Bars(cfg, decide, decider, candles, n))
  {
    hide Bar;
  }

  // Step 1: a pending intent is executed at this bar's open.
  method Execute<S>(cfg: Config, candles: seq<Candle>, i: nat, start: Run<S>) returns (run: Run<S>)
    requires ValidConfig(cfg) && i < |candles|
    ensures run == ExecuteAt(cfg, candles, i, start)
  {
    run := start;
    if run.pending.Some? {
      match ExecutePending(cfg, run.portfolio, candles[i].open, run.pending.value, i) {
        case FilledWhole(trade, portfolio) => run := run.(trades := run.trades + [trade], portfolio := portfolio);
        case Refused => run := run.(rejections := run.rejections + [Rejection(i, run.pending.value.side, false)]);
      }
      run := run.(pending := None);
    }
  }

  // Step 2: the decision at this bar's close, on the completed bars only.
  method Decide<S>(
      cfg: Config, decide: (S, View) -> (S, Choice), candles: seq<Candle>, i: nat, start: Run<S>) returns (run: Run<S>)
    requires i < |candles|
    ensures run == DecideAt(cfg, decide, candles, i, start)
  {
    run := start;
    var (decider, choice) := decide(run.decider, View(candles[..i + 1], run.portfolio, run.trades));
    run := run.(decider := decider);
    match choice {
      case Hold =>
      case Approved(side, quantity, anchor) => run := run.(pending := Some(Pending(side, quantity, i, anchor)));
      case RiskRejected(side, _) => run := run.(rejections := run.rejections + [Rejection(i, side, true)]);
    }
  }

  // Step 3: equity, peak and exposure at this bar's close.
  method Mark<S>(cfg: Config, candles: seq<Candle>, i: nat, start: Run<S>) returns (run: Run<S>)
    requires i < |candles|
    ensures run == MarkAt(cfg, candles, i, start)
  {
    run := start;
    var exposure := Mul(run.portfolio.Held(cfg.symbol), candles[i].close);
    var equity := run.portfolio.Cash(cfg.symbol.quote) + exposure;
    if equity > run.peak { run := run.(peak := equity); }
    if exposure > run.maxExposure { run := run.(maxExposure := exposure); }
    run := run.(equity := run.equity + [equity]);
  }
}
