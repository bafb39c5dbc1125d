/**
 What every backtest run guarantees, for any decision function: nothing depends on later bars,
 every fill is at the open of the bar after its signal, cash and position are conserved, and
 neither goes below zero exactly when the fee rate is at most one.
 */
module BacktestLaws {
  import opened Wrappers
  import opened Money
  import opened Orders
  import opened BacktestFill
  import opened Backtest
  import P = Portfolio

  // ---- What one bar adds ----

  // The fill of the pending intent, or its refusal.
  ghost predicate Executed<S>(run: Run<S>, next: Run<S>, i: nat) {
    && next.pending.None? && next.equity == run.equity
    && ((next.trades == run.trades && next.portfolio == run.portfolio)
        || exists t: Trade :: next.trades == run.trades + [t] && t.barIndex == i)
    && RejectionsAppended(run, next, i)
  }

  ghost predicate RejectionsAppended<S>(run: Run<S>, next: Run<S>, i: nat) {
    next.rejections == run.rejections
        || exists r: Rejection :: next.rejections == run.rejections + [r] && r.barIndex == i
  }

  lemma ExecuteAdds<S>(cfg: Config, candles: seq<Candle>, i: nat, run: Run<S>)
    requires ValidConfig(cfg) && i < |candles|
    ensures Executed(run, ExecuteAt(cfg, candles, i, run), i)
  {
    if run.pending.Some? {
      FillOf(cfg, run.portfolio, candles[i].open, run.pending.value, i);
      hide ExecutePending;
    }
  }

  // The decision and the mark leave trades and portfolio alone.
  lemma BarAdds<S>(cfg: Config, decide: (S, View) -> (S, Choice), candles: seq<Candle>, i: nat, run: Run<S>)
    requires ValidConfig(cfg) && i < |candles|
    ensures var x, next := ExecuteAt(cfg, candles, i, run), Bar(cfg, decide, candles, i, run);
            && next.trades == x.trades && next.portfolio == x.portfolio
            && next.equity == x.equity + [Equity(cfg, x.portfolio, candles[i].close)]
            && (next.pending == x.pending || (next.pending.Some? && next.pending.value.signalBar == i))
            && RejectionsAppended(x, next, i)
  {
    hide ExecuteAt, Equity;
    var x, next := ExecuteAt(cfg, candles, i, run), Bar(cfg, decide, candles, i, run);
    if next.rejections != x.rejections {
      var r := next.rejections[|x.rejections|];
      assert next.rejections == x.rejections + [r] && r.barIndex == i;
    }
  }

  // ---- No lookahead ----

  lemma SameBar<S>(cfg: Config, decide: (S, View) -> (S, Choice), a: seq<Candle>, b: seq<Candle>, i: nat, run: Run<S>)
    requires ValidConfig(cfg) && i < |a| && i < |b| && a[..i + 1] == b[..i + 1]
    ensures Bar(cfg, decide, a, i, run) == Bar(cfg, decide, b, i, run)
  {
    assert a[i] == a[..i + 1][i] == b[..i + 1][i] == b[i];
    assert ExecuteAt(cfg, a, i, run) == ExecuteAt(cfg, b, i, run);
    hide ExecuteAt, Equity;
  }

  lemma {:induction false} SamePrefixSameRun<S>(
      cfg: Config, decide: (S, View) -> (S, Choice), decider: S, a: seq<Candle>, b: seq<Candle>, k: nat)
    requires ValidConfig(cfg) && k <= |a| && k <= |b| && a[..k] == b[..k]
    ensures Bars(cfg, decide, decider, a, k) == Bars(cfg, decide, decider, b, k)
  {
    if k > 0 {
      assert a[..k - 1] == a[..k][..k - 1] && b[..k - 1] == b[..k][..k - 1];
      SamePrefixSameRun(cfg, decide, decider, a, b, k - 1);
      SameBar(cfg, decide, a, b, k - 1, Bars(cfg, decide, decider, a, k - 1));
      hide Bar;
    }
  }

  // Later bars only append: trades of later bars, one equity point each, later rejections.
  ghost predicate Appended<T>(short: seq<T>, long: seq<T>, barOf: T -> nat, k: nat) {
    short <= long && forall j :: |short| <= j < |long| ==> barOf(long[j]) >= k
  }

  ghost predicate Extends<S>(short: Run<S>, long: Run<S>, k: nat, n: nat) {
    && |short.equity| == k && |long.equity| == n && short.equity <= long.equity
    && Appended(short.trades, long.trades, (t: Trade) => t.barIndex, k)
    && Appended(short.rejections, long.rejections, (r: Rejection) => r.barIndex, k)
  }

  lemma ExtendsItself<S>(run: Run<S>, k: nat)
    requires |run.equity| == k
    ensures Extends(run, run, k, k)
  {
  }

  lemma BarExtends<S>(
      cfg: Config, decide: (S, View) -> (S, Choice), candles: seq<Candle>, short: Run<S>, run: Run<S>, k: nat, i: nat)
    requires ValidConfig(cfg) && k <= i < |candles| && Extends(short, run, k, i)
    ensures Extends(short, Bar(cfg, decide, candles, i, run), k, i + 1)
  {
    ExecuteAdds(cfg, candles, i, run);
    BarAdds(cfg, decide, candles, i, run);
    hide Bar, ExecuteAt, Equity;
  }

  lemma {:induction false} LaterBarsAppend<S>(
      cfg: Config, decide: (S, View) -> (S, Choice), decider: S, candles: seq<Candle>, k: nat, n: nat)
    requires ValidConfig(cfg) && k <= n <= |candles|
    ensures Extends(Bars(cfg, decide, decider, candles, k), Bars(cfg, decide, decider, candles, n), k, n)
    decreases n
  {
    if k == n {
      hide *;
      OnePointPerBar(cfg, decide, decider, candles, k);
      ExtendsItself(Bars(cfg, decide, decider, candles, k), k);
    } else {
      hide *;
      var short, run := Bars(cfg, decide, decider, candles, k), Bars(cfg, decide, decider, candles, n - 1);
      LaterBarsAppend(cfg, decide, decider, candles, k, n - 1);
      BarExtends(cfg, decide, candles, short, run, k, n - 1);
      OneMoreBar(cfg, decide, decider, candles, n - 1);
    }
  }

  lemma {:induction false} OnePointPerBar<S>(
      cfg: Config, decide: (S, View) -> (S, Choice), decider: S, candles: seq<Candle>, n: nat)
    requires ValidConfig(cfg) && n <= |candles|
    ensures |Bars(cfg, decide, decider, candles, n).equity| == n
  {
    if n > 0 {
      OnePointPerBar(cfg, decide, decider, candles, n - 1);
      hide ExecutePending, Equity;
    }
  }

  // Two series that agree on their first k bars give the same equity, trades and rejections of
  // those bars in their complete runs, whatever follows.
  lemma NoLookahead<S>(
      cfg: Config, decide: (S, View) -> (S, Choice), decider: S, a: seq<Candle>, b: seq<Candle>, k: nat)
    requires ValidConfig(cfg) && k <= |a| && k <= |b| && a[..k] == b[..k]
    ensures var ra, rb := Bars(cfg, decide, decider, a, |a|), Bars(cfg, decide, decider, b, |b|);
            exists common :: Extends(common, ra, k, |a|) && Extends(common, rb, k, |b|)
  {
    SamePrefixSameRun(cfg, decide, decider, a, b, k);
    LaterBarsAppend(cfg, decide, decider, a, k, |a|);
    LaterBarsAppend(cfg, decide, decider, b, k, |b|);
    hide Bars, Extends;
  }

  // ---- Every fill is at the bar after its signal ----

  ghost predicate FillsNext<S>(cfg: Config, candles: seq<Candle>, run: Run<S>, n: nat)
    requires ValidConfig(cfg)
  {
    && (run.pending.Some? ==> run.pending.value.signalBar + 1 == n)
    && forall j :: 0 <= j < |run.trades| ==> FilledAtNextOpen(cfg, candles, run.trades[j])
  }

  predicate FilledAtNextOpen(cfg: Config, candles: seq<Candle>, t: Trade)
    requires ValidConfig(cfg)
  {
    && t.barIndex == t.signalBarIndex + 1 && t.barIndex < |candles|
    && t.price == FillPrice(candles[t.barIndex].open, t.side, cfg.slippage, cfg.halfSpread, cfg.priceTick)
    && t.price > 0 && t.quantity > 0
  }

  lemma {:induction false} EveryFillIsAtTheNextOpen<S>(
      cfg: Config, decide: (S, View) -> (S, Choice), decider: S, candles: seq<Candle>, n: nat)
    requires ValidConfig(cfg) && n <= |candles|
    ensures FillsNext(cfg, candles, Bars(cfg, decide, decider, candles, n), n)
  {
    if n == 0 {
      hide FillPrice, ExecutePending;
    } else {
      hide *;
      EveryFillIsAtTheNextOpen(cfg, decide, decider, candles, n - 1);
      BarFillsNext(cfg, decide, candles, n - 1, Bars(cfg, decide, decider, candles, n - 1));
      OneMoreBar(cfg, decide, decider, candles, n - 1);
    }
  }

  lemma BarFillsNext<S>(cfg: Config, decide: (S, View) -> (S, Choice), candles: seq<Candle>, i: nat, run: Run<S>)
    requires ValidConfig(cfg) && i < |candles| && FillsNext(cfg, candles, run, i)
    ensures FillsNext(cfg, candles, Bar(cfg, decide, candles, i, run), i + 1)
  {
    BarAdds(cfg, decide, candles, i, run);
    hide Bar;
    if run.pending.Some? { FillOf(cfg, run.portfolio, candles[i].open, run.pending.value, i); }
    hide ExecutePending, Equity, FillPrice;
  }

  // What a fill is, and how it moves cash and position.
  lemma FillOf(cfg: Config, p: P.Portfolio, open: Money, intent: Pending, bar: nat)
    requires ValidConfig(cfg)
    ensures var o := ExecutePending(cfg, p, open, intent, bar);
            o.FilledWhole? ==>
              && o.trade.barIndex == bar && o.trade.signalBarIndex == intent.signalBar
              && o.trade.side == intent.side && o.trade.quantity == intent.quantity > 0
              && o.trade.price == FillPrice(open, intent.side, cfg.slippage, cfg.halfSpread, cfg.priceTick)
              && o.trade.price > 0
              && o.trade.notional == Mul(o.trade.quantity, o.trade.price)
              && o.trade.fee == FeeOn(o.trade.notional, cfg.feeRate)
              && o.portfolio.Cash(cfg.symbol.quote) == p.Cash(cfg.symbol.quote) + CashFlow(o.trade)
              && o.portfolio.Held(cfg.symbol) == p.Held(cfg.symbol) + BaseFlow(o.trade)
              && o.portfolio.reserved == p.reserved
              && (intent.side == Buy ==> o.trade.notional + o.trade.fee <= p.DeployableQuote(cfg.symbol.quote))
              && (intent.side == Sell ==> o.trade.quantity <= p.Held(cfg.symbol))
  {
    hide FillPrice, Mul, FeeOn, IsMultipleOf;
  }

  // ---- Every intent ends once ----

  // The decision of a bar, made after the pending intent of the bar before was executed.
  function DecisionAt<S>(
      cfg: Config, decide: (S, View) -> (S, Choice), candles: seq<Candle>, i: nat, run: Run<S>): Choice
    requires ValidConfig(cfg) && i < |candles|
  {
    var x := ExecuteAt(cfg, candles, i, run);
    decide(x.decider, View(candles[..i + 1], x.portfolio, x.trades)).1
  }

  function Approvals<S>(cfg: Config, decide: (S, View) -> (S, Choice), decider: S, candles: seq<Candle>, n: nat): nat
    requires ValidConfig(cfg) && n <= |candles|
  {
    if n == 0 then 0
    else
      Approvals(cfg, decide, decider, candles, n - 1)
      + if DecisionAt(cfg, decide, candles, n - 1, Bars(cfg, decide, decider, candles, n - 1)).Approved? then 1 else 0
  }

  // Refusals at a fill; those of the risk manager end no intent.
  function FillRefusals(rs: seq<Rejection>): nat
    decreases |rs|
  {
    if rs == [] then 0 else FillRefusals(rs[..|rs| - 1]) + if rs[|rs| - 1].atDecision then 0 else 1
  }

  function Ended<S>(run: Run<S>): nat {
    |run.trades| + FillRefusals(run.rejections)
  }

  lemma RefusalsAppend(rs: seq<Rejection>, r: Rejection)
    ensures FillRefusals(rs + [r]) == FillRefusals(rs) + if r.atDecision then 0 else 1
  {
    assert (rs + [r])[..|rs|] == rs;
  }

  lemma ExecutionEndsTheIntent<S>(cfg: Config, candles: seq<Candle>, i: nat, run: Run<S>)
    requires ValidConfig(cfg) && i < |candles|
    ensures var x := ExecuteAt(cfg, candles, i, run);
            Ended(x) == Ended(run) + (if run.pending.Some? then 1 else 0) && x.pending.None?
  {
    hide ExecutePending, FillRefusals;
    if run.pending.Some? { RefusalsAppend(run.rejections, Rejection(i, run.pending.value.side, false)); }
  }

  lemma BarEndsTheIntent<S>(cfg: Config, decide: (S, View) -> (S, Choice), candles: seq<Candle>, i: nat, run: Run<S>)
    requires ValidConfig(cfg) && i < |candles|
    ensures var next, decision := Bar(cfg, decide, candles, i, run), DecisionAt(cfg, decide, candles, i, run);
            && Ended(next) == Ended(run) + (if run.pending.Some? then 1 else 0)
            && next.pending
                == if decision.Approved?
                   then Some(Pending(decision.side, decision.quantity, i, decision.entryAnchor))
                   else None
  {
    hide FillRefusals;
    ExecutionEndsTheIntent(cfg, candles, i, run);
    var x := ExecuteAt(cfg, candles, i, run);
    hide ExecuteAt, Equity;
    var y := DecideAt(cfg, decide, candles, i, x);
    if y.rejections != x.rejections { RefusalsAppend(x.rejections, y.rejections[|x.rejections|]); }
  }

  lemma NoneEnded<S>(cfg: Config, decider: S)
    ensures Ended(Begin(cfg, decider)) == 0 && Begin(cfg, decider).pending.None?
  {
  }

  // Over every run the approved intents are as many as the trades, the refusals at a fill and the
  // intent still pending.
  lemma {:induction false} EndedIntentsAddUp<S>(
      cfg: Config, decide: (S, View) -> (S, Choice), decider: S, candles: seq<Candle>, n: nat)
    requires ValidConfig(cfg) && n <= |candles|
    ensures var run := Bars(cfg, decide, decider, candles, n);
            |run.trades| + FillRefusals(run.rejections) + (if run.pending.Some? then 1 else 0)
                == Approvals(cfg, decide, decider, candles, n)
  {
    hide Bar, ExecuteAt, DecisionAt, FillRefusals;
    if n == 0 {
      NoneEnded(cfg, decider);
    } else {
      EndedIntentsAddUp(cfg, decide, decider, candles, n - 1);
      var run := Bars(cfg, decide, decider, candles, n - 1);
      BarEndsTheIntent(cfg, decide, candles, n - 1, run);
      OneMoreBar(cfg, decide, decider, candles, n - 1);
    }
  }

  // ---- Each intent and its own end ----

  function TradesFrom(ts: seq<Trade>, signalBar: int): nat
    decreases |ts|
  {
    if ts == [] then 0
    else TradesFrom(ts[..|ts| - 1], signalBar)
         + if ts[|ts| - 1].signalBarIndex == signalBar then 1 else 0
  }

  function FillRefusalsAt(rs: seq<Rejection>, bar: int): nat
    decreases |rs|
  {
    if rs == [] then 0
    else FillRefusalsAt(rs[..|rs| - 1], bar) + if !rs[|rs| - 1].atDecision && rs[|rs| - 1].barIndex == bar then 1 else 0
  }

  // The ends of the intent of a bar: trades that name the bar, and fill refusals at the next one.
  function Ends<S>(run: Run<S>, j: int): nat {
    TradesFrom(run.trades, j) + FillRefusalsAt(run.rejections, j + 1)
  }

  lemma TradeAppends(ts: seq<Trade>, t: Trade, j: int)
    ensures TradesFrom(ts + [t], j) == TradesFrom(ts, j) + if t.signalBarIndex == j then 1 else 0
  {
    assert (ts + [t])[..|ts|] == ts;
  }

  lemma RefusalAppends(rs: seq<Rejection>, r: Rejection, bar: int)
    ensures FillRefusalsAt(rs + [r], bar) == FillRefusalsAt(rs, bar)
        + if !r.atDecision && r.barIndex == bar then 1 else 0
  {
    assert (rs + [r])[..|rs|] == rs;
  }

  predicate ApprovedAt<S>(cfg: Config, decide: (S, View) -> (S, Choice), decider: S, candles: seq<Candle>, j: nat)
    requires ValidConfig(cfg) && j < |candles|
  {
    DecisionAt(cfg, decide, candles, j, Bars(cfg, decide, decider, candles, j)).Approved?
  }

  lemma ExecutionEndsOnly<S>(cfg: Config, candles: seq<Candle>, i: nat, run: Run<S>, j: int)
    requires ValidConfig(cfg) && i < |candles| && (run.pending.Some? ==> run.pending.value.signalBar + 1 == i)
    ensures Ends(ExecuteAt(cfg, candles, i, run), j) == Ends(run, j) + if run.pending.Some? && j + 1 == i then 1 else 0
  {
    if run.pending.Some? {
      FillOf(cfg, run.portfolio, candles[i].open, run.pending.value, i);
      var o := ExecutePending(cfg, run.portfolio, candles[i].open, run.pending.value, i);
      hide ExecutePending, TradesFrom, FillRefusalsAt, FillPrice, FeeOn, CashFlow, BaseFlow;
      if o.FilledWhole? {
        TradeAppends(run.trades, o.trade, j);
      } else {
        RefusalAppends(run.rejections, Rejection(i, run.pending.value.side, false), j + 1);
      }
    }
  }

  lemma DecisionEndsNothing<S>(
      cfg: Config, decide: (S, View) -> (S, Choice), candles: seq<Candle>, i: nat, run: Run<S>, j: int)
    requires i < |candles|
    ensures Ends(DecideAt(cfg, decide, candles, i, run), j) == Ends(run, j)
  {
    hide TradesFrom, FillRefusalsAt;
    var next := DecideAt(cfg, decide, candles, i, run);
    if next.rejections != run.rejections {
      var r := next.rejections[|run.rejections|];
      assert next.rejections == run.rejections + [r] && r.atDecision;
      RefusalAppends(run.rejections, r, j + 1);
    }
  }

  // A bar ends the pending intent, which is of the bar before, and no other.
  lemma BarEndsOnly<S>(cfg: Config, decide: (S, View) -> (S, Choice), candles: seq<Candle>, i: nat, run: Run<S>, j: int)
    requires ValidConfig(cfg) && i < |candles| && (run.pending.Some? ==> run.pending.value.signalBar + 1 == i)
    ensures Ends(Bar(cfg, decide, candles, i, run), j) == Ends(run, j)
        + if run.pending.Some? && j + 1 == i then 1 else 0
  {
    ExecutionEndsOnly(cfg, candles, i, run, j);
    DecisionEndsNothing(cfg, decide, candles, i, ExecuteAt(cfg, candles, i, run), j);
    hide ExecuteAt, DecideAt, Equity, TradesFrom, FillRefusalsAt;
  }

  lemma NothingEnded<S>(cfg: Config, decider: S, j: int)
    ensures Ends(Begin(cfg, decider), j) == 0
  {
  }

  // The approved intent of a bar ends in exactly one trade of that bar's signal or exactly one
  // refusal at the next bar's fill, once there is a next bar; no other trade or refusal exists.
  lemma {:induction false} EveryIntentEndsOnce<S>(
      cfg: Config, decide: (S, View) -> (S, Choice), decider: S, candles: seq<Candle>, n: nat, j: int)
    requires ValidConfig(cfg) && n <= |candles|
    ensures Ends(Bars(cfg, decide, decider, candles, n), j)
         == if 0 <= j < n - 1 && ApprovedAt(cfg, decide, decider, candles, j) then 1 else 0
    decreases n
  {
    hide Bar, DecisionAt, ApprovedAt, Ends;
    if n == 0 {
      NothingEnded(cfg, decider, j);
    } else {
      EveryIntentEndsOnce(cfg, decide, decider, candles, n - 1, j);
      var run := Bars(cfg, decide, decider, candles, n - 1);
      PendingIsOfTheLastBar(cfg, decide, decider, candles, n - 1);
      BarEndsOnly(cfg, decide, candles, n - 1, run, j);
      OneMoreBar(cfg, decide, decider, candles, n - 1);
    }
  }

  lemma PendingIsOfTheLastBar<S>(
      cfg: Config, decide: (S, View) -> (S, Choice), decider: S, candles: seq<Candle>, n: nat)
    requires ValidConfig(cfg) && n <= |candles|
    ensures var run := Bars(cfg, decide, decider, candles, n);
            && (run.pending.Some? <==> n > 0 && ApprovedAt(cfg, decide, decider, candles, n - 1))
            && (run.pending.Some? ==>
                  var d := DecisionAt(cfg, decide, candles, n - 1, Bars(cfg, decide, decider, candles, n - 1));
                  d.Approved? && run.pending.value == Pending(d.side, d.quantity, n - 1, d.entryAnchor))
  {
    hide Bar, DecisionAt;
    if n > 0 {
      OneMoreBar(cfg, decide, decider, candles, n - 1);
      BarEndsTheIntent(cfg, decide, candles, n - 1, Bars(cfg, decide, decider, candles, n - 1));
    }
  }

  // A trade of the bar after its signal, with the side and the quantity the intent was approved with.
  ghost predicate IsIntentOf<S>(
      cfg: Config, decide: (S, View) -> (S, Choice), decider: S, candles: seq<Candle>, n: nat, t: Trade)
    requires ValidConfig(cfg) && n <= |candles|
  {
    && t.barIndex == t.signalBarIndex + 1 < n
    && var j := t.signalBarIndex;
       var d := DecisionAt(cfg, decide, candles, j, Bars(cfg, decide, decider, candles, j));
       d.Approved? && d.side == t.side && d.quantity == t.quantity
  }

  lemma {:induction false} EveryTradeIsItsIntent<S>(
      cfg: Config, decide: (S, View) -> (S, Choice), decider: S, candles: seq<Candle>, n: nat)
    requires ValidConfig(cfg) && n <= |candles|
    ensures forall t :: t in Bars(cfg, decide, decider, candles, n).trades ==>
        IsIntentOf(cfg, decide, decider, candles, n, t)
  {
    if n > 0 {
      var run := Bars(cfg, decide, decider, candles, n - 1);
      OneMoreBar(cfg, decide, decider, candles, n - 1);
      EveryTradeIsItsIntent(cfg, decide, decider, candles, n - 1);
      hide Bars, Bar, DecisionAt;
      forall t | t in Bars(cfg, decide, decider, candles, n).trades
        ensures IsIntentOf(cfg, decide, decider, candles, n, t)
      {
        if t in run.trades {
          assert IsIntentOf(cfg, decide, decider, candles, n - 1, t);
        } else {
          PendingIsOfTheLastBar(cfg, decide, decider, candles, n - 1);
          NewTradeIsPending(cfg, decide, candles, n - 1, run, t);
        }
      }
    }
  }

  lemma NewTradeIsPending<S>(
      cfg: Config, decide: (S, View) -> (S, Choice), candles: seq<Candle>, i: nat, run: Run<S>, t: Trade)
    requires ValidConfig(cfg) && i < |candles| && t in Bar(cfg, decide, candles, i, run).trades && t !in run.trades
    ensures run.pending.Some? && t.barIndex == i && t.signalBarIndex == run.pending.value.signalBar
    ensures t.side == run.pending.value.side && t.quantity == run.pending.value.quantity
  {
    BarAdds(cfg, decide, candles, i, run);
    hide Bar;
    if run.pending.Some? {
      FillOf(cfg, run.portfolio, candles[i].open, run.pending.value, i);
      hide ExecutePending;
    }
  }

  // ---- Conservation ----

  function CashFlow(t: Trade): Money {
    if t.side == Buy then -(t.notional + t.fee) else t.notional - t.fee
  }

  function BaseFlow(t: Trade): Money {
    if t.side == Buy then t.quantity else -t.quantity
  }

  function TotalCash(ts: seq<Trade>): Money
    decreases |ts|
  {
    if ts == [] then 0 else TotalCash(ts[..|ts| - 1]) + CashFlow(ts[|ts| - 1])
  }

  function TotalBase(ts: seq<Trade>): Money
    decreases |ts|
  {
    if ts == [] then 0 else TotalBase(ts[..|ts| - 1]) + BaseFlow(ts[|ts| - 1])
  }

  // Cash is the initial cash less all purchases with their fees plus all sales less theirs, the
  // position is what was bought less what was sold, and the equity is both at the close.
  ghost predicate Conserved<S>(cfg: Config, run: Run<S>) {
    && run.portfolio.Cash(cfg.symbol.quote) == cfg.initialCash + TotalCash(run.trades)
    && run.portfolio.Held(cfg.symbol) == TotalBase(run.trades)
    && run.portfolio.reserved == map[]
  }

  lemma TotalsAppend(ts: seq<Trade>, t: Trade)
    ensures TotalCash(ts + [t]) == TotalCash(ts) + CashFlow(t)
    ensures TotalBase(ts + [t]) == TotalBase(ts) + BaseFlow(t)
  {
    assert (ts + [t])[..|ts|] == ts;
  }

  lemma ExecuteConserves<S>(cfg: Config, candles: seq<Candle>, i: nat, run: Run<S>)
    requires ValidConfig(cfg) && i < |candles| && Conserved(cfg, run)
    ensures Conserved(cfg, ExecuteAt(cfg, candles, i, run))
  {
    if run.pending.Some? {
      FillOf(cfg, run.portfolio, candles[i].open, run.pending.value, i);
      var o := ExecutePending(cfg, run.portfolio, candles[i].open, run.pending.value, i);
      if o.FilledWhole? { TotalsAppend(run.trades, o.trade); }
      hide ExecutePending;
    }
  }

  lemma {:induction false} EveryBarConserves<S>(
      cfg: Config, decide: (S, View) -> (S, Choice), decider: S, candles: seq<Candle>, n: nat)
    requires ValidConfig(cfg) && n <= |candles|
    ensures Conserved(cfg, Bars(cfg, decide, decider, candles, n))
    ensures n > 0 ==> var run := Bars(cfg, decide, decider, candles, n);
                      run.equity != []
                      && run.equity[|run.equity| - 1]
                           == cfg.initialCash + TotalCash(run.trades) + Mul(TotalBase(run.trades), candles[n - 1].close)
  {
    hide Bar, Conserved;
    if n == 0 {
      BeginConserves(cfg, decider);
    } else {
      EveryBarConserves(cfg, decide, decider, candles, n - 1);
      BarConserves(cfg, decide, candles, n - 1, Bars(cfg, decide, decider, candles, n - 1));
      OneMoreBar(cfg, decide, decider, candles, n - 1);
    }
  }

  lemma BeginConserves<S>(cfg: Config, decider: S)
    ensures Conserved(cfg, Begin(cfg, decider))
  {
  }

  lemma BarConserves<S>(cfg: Config, decide: (S, View) -> (S, Choice), candles: seq<Candle>, i: nat, run: Run<S>)
    requires ValidConfig(cfg) && i < |candles| && Conserved(cfg, run)
    ensures var next := Bar(cfg, decide, candles, i, run);
            && Conserved(cfg, next) && next.equity != []
            && next.equity[|next.equity| - 1]
                 == cfg.initialCash + TotalCash(next.trades) + Mul(TotalBase(next.trades), candles[i].close)
  {
    ExecuteConserves(cfg, candles, i, run);
    BarAdds(cfg, decide, candles, i, run);
    hide Bar, ExecuteAt, TotalCash, TotalBase, Mul;
  }

  // ---- Never below zero, exactly up to a fee rate of one ----

  ghost predicate Solvent<S>(cfg: Config, run: Run<S>) {
    run.portfolio.Cash(cfg.symbol.quote) >= 0 && run.portfolio.Held(cfg.symbol) >= 0 && run.portfolio.reserved == map[]
  }

  lemma ExecuteKeepsSolvent<S>(cfg: Config, candles: seq<Candle>, i: nat, run: Run<S>)
    requires ValidConfig(cfg) && cfg.feeRate <= FRACTION_SCALE && i < |candles| && Solvent(cfg, run)
    ensures Solvent(cfg, ExecuteAt(cfg, candles, i, run))
  {
    if run.pending.Some? {
      FillOf(cfg, run.portfolio, candles[i].open, run.pending.value, i);
      var o := ExecutePending(cfg, run.portfolio, candles[i].open, run.pending.value, i);
      if o.FilledWhole? {
        MulNonNegative(o.trade.quantity, o.trade.price);
        FeeWithinNotional(o.trade.notional, cfg.feeRate);
      }
      hide ExecutePending, Mul, FeeOn, FillPrice;
    }
  }

  lemma {:induction false} NeverBelowZero<S>(
      cfg: Config, decide: (S, View) -> (S, Choice), decider: S, candles: seq<Candle>, n: nat)
    requires ValidConfig(cfg) && cfg.feeRate <= FRACTION_SCALE && n <= |candles|
    ensures Solvent(cfg, Bars(cfg, decide, decider, candles, n))
  {
    hide Bar, ExecuteAt;
    if n > 0 {
      NeverBelowZero(cfg, decide, decider, candles, n - 1);
      var run := Bars(cfg, decide, decider, candles, n - 1);
      ExecuteKeepsSolvent(cfg, candles, n - 1, run);
      BarAdds(cfg, decide, candles, n - 1, run);
    }
  }

  // Any higher rate, which the configuration check admits, can end below zero: one unit price, a
  // purchase with all the cash, and its sale.
  function Script(step: nat, view: View): (nat, Choice) {
    (step + 1,
     if step == 0 then Approved(Buy, FRACTION_SCALE, None)
     else if step == 1 then Approved(Sell, FRACTION_SCALE, None) else Hold)
  }

  function FlatCandle(t: int): Candle {
    Candle(t, SCALE, SCALE, SCALE, SCALE, 0)
  }

  function FlatConfig(rate: int): Config {
    Config(Symbol("BTC", "CAD"), FRACTION_SCALE + FeeOn(FRACTION_SCALE, rate), rate, 0, 0, 1, 1, None, 0)
  }

  lemma FlatFill(rate: int)
    ensures FillPrice(SCALE, Buy, 0, 0, 1) == SCALE == FillPrice(SCALE, Sell, 0, 0, 1)
    ensures Mul(FRACTION_SCALE, SCALE) == FRACTION_SCALE
    ensures IsMultipleOf(FRACTION_SCALE, 1)
  {
  }

  // All the cash buys the unit, and the sale pays its fee out of nothing.
  lemma FlatPurchase(rate: int, p: P.Portfolio, bar: nat)
    requires rate > FRACTION_SCALE && p == Begin(FlatConfig(rate), 0).portfolio
    ensures var o := ExecutePending(FlatConfig(rate), p, SCALE, Pending(Buy, FRACTION_SCALE, 0, None), bar);
            && o.FilledWhole? && o.portfolio.Cash("CAD") == 0
            && o.portfolio.Held(FlatConfig(rate).symbol) == FRACTION_SCALE
            && "CAD" in o.portfolio.cash
  {
    FlatFill(rate);
    FeeAboveNotional(rate);
    hide FeeOn, FillPrice, Mul, IsMultipleOf, Div;
  }

  lemma FlatSale(rate: int, p: P.Portfolio, bar: nat)
    requires rate > FRACTION_SCALE
    requires p.Cash("CAD") == 0 && "CAD" in p.cash && p.Held(FlatConfig(rate).symbol) == FRACTION_SCALE
    ensures var o := ExecutePending(FlatConfig(rate), p, SCALE, Pending(Sell, FRACTION_SCALE, 1, None), bar);
            o.FilledWhole? && o.portfolio.Cash("CAD") < 0
  {
    FlatFill(rate);
    FeeAboveNotional(rate);
    hide FeeOn, FillPrice, Mul, IsMultipleOf, Div;
  }

  lemma HigherRateGoesBelowZero(rate: int)
    requires rate > FRACTION_SCALE
    ensures exists cfg, candles: seq<Candle> ::
              && ValidConfig(cfg) && cfg.feeRate == rate && ValidCandles(candles) && |candles| > cfg.warmup
              && !Solvent(cfg, Bars(cfg, Script, 0, candles, |candles|))
  {
    var cfg := FlatConfig(rate);
    var candles := [FlatCandle(1), FlatCandle(2), FlatCandle(3)];
    FlatConfigIs(rate);
    assert ValidCandles(candles);
    FlatBars(rate, candles);
    hide ValidCandles, FlatConfig, ValidConfig, Bars;
  }

  // Three flat bars: buy, sell, and the cash after the sale.
  lemma FlatBars(rate: int, candles: seq<Candle>)
    requires rate > FRACTION_SCALE && ValidConfig(FlatConfig(rate)) && FlatConfig(rate).symbol.quote == "CAD"
    requires |candles| == 3 && candles[0].open == candles[1].open == candles[2].open == SCALE
    ensures Bars(FlatConfig(rate), Script, 0, candles, 3).portfolio.Cash("CAD") < 0
  {
    hide FeeOn, ExecutePending, ValidConfig, FlatConfig, Equity;
    var cfg := FlatConfig(rate);
    var r0 := Begin(cfg, 0);
    var r1 := Bar(cfg, Script, candles, 0, r0);
    assert r1.pending == Some(Pending(Buy, FRACTION_SCALE, 0, None)) && r1.decider == 1 && r1.portfolio == r0.portfolio;
    FlatPurchase(rate, r1.portfolio, 1);
    var r2 := Bar(cfg, Script, candles, 1, r1);
    assert r2.pending == Some(Pending(Sell, FRACTION_SCALE, 1, None)) && r2.decider == 2;
    FlatSale(rate, r2.portfolio, 2);
    var r3 := Bar(cfg, Script, candles, 2, r2);
    assert r3.portfolio.Cash("CAD") < 0;
    hide Bar;
    OneMoreBar(cfg, Script, 0, candles, 0);
    OneMoreBar(cfg, Script, 0, candles, 1);
    OneMoreBar(cfg, Script, 0, candles, 2);
  }

  lemma FlatConfigIs(rate: int)
    requires rate > FRACTION_SCALE
    ensures FlatConfig(rate).symbol.quote == "CAD" && FlatConfig(rate).feeRate == rate && FlatConfig(rate).warmup == 0
    ensures ValidConfig(FlatConfig(rate))
  {
    FeeAboveNotional(rate);
    hide FeeOn;
  }
}
