/**
 The metrics of a finished backtest (src/backtest/report.ts): the folds over the trades, which
 agree with the portfolio's own books, and the drawdown loop, which starts from the final peak
 and therefore never understates the true drawdown, and states it exactly when the lowest point
 lies under the final peak or loses everything.
 */
module BacktestReport {
  import opened Money
  import opened BacktestFill
  import opened Backtest
  import opened BacktestLaws
  import P = Portfolio

  datatype Metrics = Metrics(
    winningTrades: nat,
    losingTrades: nat,
    grossProfit: Money,
    grossLoss: Money,
    largestWin: Money,
    largestLoss: Money,
    feesPaid: Money,
    maxDrawdown: Money)

  // ---- Sums and counts over the trades ----

  function Pnl(t: Trade): Money {
    if t.realizedPnl.Some? then t.realizedPnl.value else 0
  }

  function Count(ts: seq<Trade>, sign: bool): nat
    decreases |ts|
  {
    if ts == [] then 0
    else Count(ts[..|ts| - 1], sign)
         + if (sign && Pnl(ts[|ts| - 1]) > 0) || (!sign && Pnl(ts[|ts| - 1]) < 0) then 1 else 0
  }

  function Gross(ts: seq<Trade>, sign: bool): Money
    decreases |ts|
  {
    if ts == [] then 0
    else Gross(ts[..|ts| - 1], sign)
         + if sign && Pnl(ts[|ts| - 1]) > 0 then Pnl(ts[|ts| - 1])
           else if !sign && Pnl(ts[|ts| - 1]) < 0 then -Pnl(ts[|ts| - 1]) else 0
  }

  function Fees(ts: seq<Trade>): Money
    decreases |ts|
  {
    if ts == [] then 0 else Fees(ts[..|ts| - 1]) + ts[|ts| - 1].fee
  }

  // ---- Drawdown ----

  function Higher(a: Money, b: Money): Money {
    if a > b then a else b
  }

  // The peak after a stretch of the curve that began at some peak, and the deepest fall below it
  // as a truncated fraction.
  function PeakAfter(curve: seq<Money>, start: Money): Money
    decreases |curve|
  {
    if curve == [] then start else Higher(curve[|curve| - 1], PeakAfter(curve[..|curve| - 1], start))
  }

  function Fall(peak: Money, equity: Money): Money {
    if peak == 0 then 0 else Div(peak - equity, peak)
  }

  function Drawdown(curve: seq<Money>, start: Money): Money
    decreases |curve|
  {
    if curve == [] then 0
    else Higher(Fall(PeakAfter(curve, start), curve[|curve| - 1]), Drawdown(curve[..|curve| - 1], start))
  }

  method ComputeMetrics(trades: seq<Trade>, curve: seq<Money>, peakEquity: Money) returns (m: Metrics)
    ensures m.winningTrades == Count(trades, true) && m.losingTrades == Count(trades, false)
    ensures m.grossProfit == Gross(trades, true) && m.grossLoss == Gross(trades, false)
    ensures m.feesPaid == Fees(trades)
    ensures m.largestWin >= 0 && (forall t :: t in trades ==> Pnl(t) <= m.largestWin)
    ensures m.largestWin > 0 ==> exists t :: t in trades && Pnl(t) == m.largestWin
    ensures m.largestLoss <= 0 && (forall t :: t in trades ==> Pnl(t) >= m.largestLoss)
    ensures m.largestLoss < 0 ==> exists t :: t in trades && Pnl(t) == m.largestLoss
    ensures m.maxDrawdown == Drawdown(curve, peakEquity)
  {
    m := Metrics(0, 0, 0, 0, 0, 0, 0, 0);
    for i := 0 to |trades|
      invariant m.winningTrades == Count(trades[..i], true) && m.losingTrades == Count(trades[..i], false)
      invariant m.grossProfit == Gross(trades[..i], true) && m.grossLoss == Gross(trades[..i], false)
      invariant m.feesPaid == Fees(trades[..i]) && m.maxDrawdown == 0
      invariant m.largestLoss <= 0 <= m.largestWin
      invariant forall j :: 0 <= j < i ==> m.largestLoss <= Pnl(trades[j]) <= m.largestWin
      invariant m.largestWin > 0 ==> exists j :: 0 <= j < i && Pnl(trades[j]) == m.largestWin
      invariant m.largestLoss < 0 ==> exists j :: 0 <= j < i && Pnl(trades[j]) == m.largestLoss
    {
      assert trades[..i + 1][..i] == trades[..i];
      var t := trades[i];
      m := m.(feesPaid := m.feesPaid + t.fee);
      if t.realizedPnl.Some? {
        var pnl := t.realizedPnl.value;
        if pnl > 0 {
          m := m.(winningTrades := m.winningTrades + 1, grossProfit := m.grossProfit + pnl,
                  largestWin := if pnl > m.largestWin then pnl else m.largestWin);
        } else if pnl < 0 {
          m := m.(losingTrades := m.losingTrades + 1, grossLoss := m.grossLoss + -pnl,
                  largestLoss := if pnl < m.largestLoss then pnl else m.largestLoss);
        }
      }
    }
    assert trades[..|trades|] == trades;
    var dd := DrawdownLoop(curve, peakEquity);
    m := m.(maxDrawdown := dd);
  }

  method DrawdownLoop(curve: seq<Money>, peakEquity: Money) returns (dd: Money)
    ensures dd == Drawdown(curve, peakEquity)
  {
    dd := 0;
    var runningPeak := peakEquity;
    for i := 0 to |curve|
      invariant runningPeak == PeakAfter(curve[..i], peakEquity)
      invariant dd == Drawdown(curve[..i], peakEquity) && dd >= 0
    {
      assert curve[..i + 1][..i] == curve[..i];
      if curve[i] > runningPeak { runningPeak := curve[i]; }
      if runningPeak != 0 {
        var fall := Div(runningPeak - curve[i], runningPeak);
        if fall > dd { dd := fall; }
      }
    }
    assert curve[..|curve|] == curve;
  }

  // ---- The folds agree with the books ----

  function Realized(ts: seq<Trade>): Money
    decreases |ts|
  {
    if ts == [] then 0 else Realized(ts[..|ts| - 1]) + Pnl(ts[|ts| - 1])
  }

  lemma {:induction false} ProfitLessLoss(ts: seq<Trade>)
    ensures Gross(ts, true) - Gross(ts, false) == Realized(ts)
    ensures Gross(ts, true) >= 0 && Gross(ts, false) >= 0
    decreases |ts|
  {
    if ts != [] {
      ProfitLessLoss(ts[..|ts| - 1]);
    }
  }

  lemma FillRealizes(cfg: Config, p: P.Portfolio, open: Money, intent: Pending, bar: nat)
    requires ValidConfig(cfg)
    ensures var o := ExecutePending(cfg, p, open, intent, bar);
            o.FilledWhole? ==> o.portfolio.realizedPnl == p.realizedPnl + Pnl(o.trade)
  {
    hide FillPrice, Mul, FeeOn, IsMultipleOf;
  }

  // Gross profit less gross loss is what the portfolio realized, bar by bar of every run.
  lemma {:induction false} MetricsMatchThePortfolio<S>(
      cfg: Config, decide: (S, View) -> (S, Choice), decider: S, candles: seq<Candle>, n: nat)
    requires ValidConfig(cfg) && n <= |candles|
    ensures var run := Bars(cfg, decide, decider, candles, n);
            run.portfolio.realizedPnl == Gross(run.trades, true) - Gross(run.trades, false)
  {
    ProfitLessLoss(Bars(cfg, decide, decider, candles, n).trades);
    hide Gross;
    if n > 0 {
      MetricsMatchThePortfolio(cfg, decide, decider, candles, n - 1);
      var run := Bars(cfg, decide, decider, candles, n - 1);
      ProfitLessLoss(run.trades);
      BarRealizes(cfg, decide, candles, n - 1, run);
      OneMoreBar(cfg, decide, decider, candles, n - 1);
      hide Bars, Bar;
    }
  }

  lemma BarRealizes<S>(cfg: Config, decide: (S, View) -> (S, Choice), candles: seq<Candle>, i: nat, run: Run<S>)
    requires ValidConfig(cfg) && i < |candles| && run.portfolio.realizedPnl == Realized(run.trades)
    ensures var next := Bar(cfg, decide, candles, i, run); next.portfolio.realizedPnl == Realized(next.trades)
  {
    BarAdds(cfg, decide, candles, i, run);
    hide Bar;
    if run.pending.Some? {
      FillRealizes(cfg, run.portfolio, candles[i].open, run.pending.value, i);
      var o := ExecutePending(cfg, run.portfolio, candles[i].open, run.pending.value, i);
      hide ExecutePending;
      if o.FilledWhole? { assert (run.trades + [o.trade])[..|run.trades|] == run.trades; }
    }
  }

  // ---- The reported drawdown never understates ----

  // A fall from a higher peak to the same equity is at least as deep.
  lemma DeeperFromHigherPeak(low: Money, high: Money, equity: Money)
    requires 0 <= equity <= low <= high
    ensures Fall(low, equity) <= Fall(high, equity)
    ensures Fall(low, equity) >= 0
  {
    if low > 0 {
      FallIsQuotient(low, equity);
      FallIsQuotient(high, equity);
      hide Fall;
      CrossProducts(low, high, equity);
      QuotientsCompare((low - equity) * SCALE, low, (high - equity) * SCALE, high);
    }
  }

  lemma FallIsQuotient(peak: Money, equity: Money)
    requires 0 <= equity <= peak && peak > 0
    ensures (peak - equity) * SCALE >= 0 && Fall(peak, equity) == (peak - equity) * SCALE / peak >= 0
  {
    var x: nat := (peak - equity) * SCALE;
    QuotientIsNat(x, peak);
    assert TruncDiv(x, peak) == x / peak;
  }

  lemma QuotientIsNat(x: nat, d: int)
    requires d > 0
    ensures x / d >= 0
  {
  }

  lemma CrossProducts(low: int, high: int, equity: int)
    requires 0 <= equity && low <= high
    ensures (low - equity) * SCALE * high <= (high - equity) * SCALE * low
  {
    MulLe(low, high, equity);
    assert low * equity == equity * low && high * equity == equity * high;
    assert (low - equity) * high == low * high - equity * high && (high - equity) * low == low * high - equity * low;
    MulLe((low - equity) * high, (high - equity) * low, SCALE);
    Swap(low - equity, high);
    Swap(high - equity, low);
  }

  lemma Swap(a: int, b: int)
    ensures a * SCALE * b == a * b * SCALE
  {
  }

  // x / p <= y / q when x * q <= y * p.
  lemma QuotientsCompare(x: nat, p: int, y: nat, q: int)
    requires p > 0 && q > 0 && x * q <= y * p
    ensures x / p <= y / q
  {
    var a, b := x / p, y / q;
    var above := (b + 1) * q;
    Split(x, p);
    Split(y, q);
    MulStep(b, q);
    MulLe(a * p, x, q);
    MulLe(y, above, p);
    Reorder(a, p, q);
    Reorder(b + 1, q, p);
    MulLe(b + 1, a, p * q);
  }

  lemma Reorder(a: int, p: int, q: int)
    ensures a * p * q == a * (p * q) == a * (q * p)
    ensures p > 0 && q > 0 ==> p * q > 0
  {
  }

  lemma {:induction false} PeakBounds(curve: seq<Money>, low: Money, high: Money)
    requires low <= high
    ensures PeakAfter(curve, low) <= PeakAfter(curve, high)
    ensures low <= PeakAfter(curve, low)
    ensures curve != [] ==> curve[|curve| - 1] <= PeakAfter(curve, low)
    decreases |curve|
  {
    if curve != [] {
      PeakBounds(curve[..|curve| - 1], low, high);
    }
  }

  // For every non-negative curve the drawdown grows with the peak it starts from. The loop starts
  // from the final peak, the genuine running peak starts from the capital.
  lemma {:induction false} ReportedIsAtLeastTrue(curve: seq<Money>, capital: Money, finalPeak: Money)
    requires 0 <= capital <= finalPeak && forall i :: 0 <= i < |curve| ==> curve[i] >= 0
    ensures Drawdown(curve, finalPeak) >= Drawdown(curve, capital) >= 0
    decreases |curve|
  {
    if curve != [] {
      ReportedIsAtLeastTrue(curve[..|curve| - 1], capital, finalPeak);
      PeakBounds(curve, capital, finalPeak);
      DeeperFromHigherPeak(PeakAfter(curve, capital), PeakAfter(curve, finalPeak), curve[|curve| - 1]);
      hide Fall;
    }
  }

  // With the final peak the loop reports the fall from that peak to the lowest point, whatever the
  // order of the two.
  lemma {:induction false} ReportedIsPeakToLowest(curve: seq<Money>, finalPeak: Money, lowest: Money)
    requires curve != [] && lowest in curve && finalPeak > 0
    requires forall i :: 0 <= i < |curve| ==> 0 <= lowest <= curve[i] <= finalPeak
    ensures Drawdown(curve, finalPeak) == Fall(finalPeak, lowest) && PeakAfter(curve, finalPeak) == finalPeak
    decreases |curve|
  {
    var init, last := curve[..|curve| - 1], curve[|curve| - 1];
    if init == [] {
      DeeperFromHigherPeak(finalPeak, finalPeak, last);
      assert lowest == curve[0] == last;
      assert Drawdown(init, finalPeak) == 0 && PeakAfter(init, finalPeak) == finalPeak;
    } else {
      var next := Lowest(init);
      ReportedIsPeakToLowest(init, finalPeak, next);
      FallIsAntitone(finalPeak, if next < last then next else last, if next < last then last else next);
      assert lowest == (if next < last then next else last) by {
        if lowest in init { assert next <= lowest; } else { assert lowest == last; }
      }
      hide Fall;
    }
  }

  lemma FallIsAntitone(peak: Money, a: Money, b: Money)
    requires 0 <= a <= b <= peak && peak > 0
    ensures 0 <= Fall(peak, b) <= Fall(peak, a)
  {
    FallIsQuotient(peak, a);
    FallIsQuotient(peak, b);
    hide Fall;
    MulLe(peak - b, peak - a, SCALE);
    MulLe((peak - b) * SCALE, (peak - a) * SCALE, peak);
    QuotientsCompare((peak - b) * SCALE, peak, (peak - a) * SCALE, peak);
  }

  lemma {:induction false} Lowest(curve: seq<Money>) returns (lowest: Money)
    requires curve != []
    ensures lowest in curve && forall i :: 0 <= i < |curve| ==> lowest <= curve[i]
    decreases |curve|
  {
    lowest := curve[|curve| - 1];
    if |curve| > 1 {
      var rest := Lowest(curve[..|curve| - 1]);
      assert rest in curve;
      if rest < lowest { lowest := rest; }
      assert forall i :: 0 <= i < |curve| - 1 ==> curve[..|curve| - 1][i] == curve[i];
    }
  }

  // ---- Exactly when it is the true drawdown ----

  // The fall as an exact fraction, and the deepest one of a curve that starts from some peak.
  function ExactFall(peak: Money, equity: Money): real {
    if peak == 0 then 0.0 else (peak - equity) as real / peak as real
  }

  function DeepestFall(curve: seq<Money>, start: Money): real
    decreases |curve|
  {
    if curve == [] then 0.0
    else Deeper(ExactFall(PeakAfter(curve, start), curve[|curve| - 1]), DeepestFall(curve[..|curve| - 1], start))
  }

  function Deeper(a: real, b: real): real {
    if a > b then a else b
  }

  lemma FallTimesPeak(peak: Money, equity: Money)
    requires peak > 0
    ensures ExactFall(peak, equity) * peak as real == (peak - equity) as real
  {
  }

  // a / p <= b / q for positive p and q, with the quotients as r and s.
  lemma RatiosCompare(r: real, s: real, a: real, p: real, b: real, q: real)
    requires p > 0.0 && q > 0.0 && r * p == a && s * q == b
    ensures a * q <= b * p <==> r <= s
    ensures a * q == b * p <==> r == s
  {
    assert a * q == r * (p * q) && b * p == s * (p * q) && p * q > 0.0;
    if r <= s { assert (s - r) * (p * q) >= 0.0; } else { assert (r - s) * (p * q) > 0.0; }
  }

  // Falls compare as the remaining parts of their peaks do.
  lemma FallsCompare(p: Money, c: Money, q: Money, d: Money)
    requires p > 0 && q > 0
    ensures ExactFall(p, c) <= ExactFall(q, d) <==> d * p <= c * q
    ensures ExactFall(p, c) == ExactFall(q, d) <==> d * p == c * q
  {
    FallTimesPeak(p, c);
    FallTimesPeak(q, d);
    RatiosCompare(ExactFall(p, c), ExactFall(q, d), (p - c) as real, p as real, (q - d) as real, q as real);
    assert (p - c) * q == p * q - c * q && (q - d) * p == p * q - d * p;
    assert (p - c) as real * q as real == ((p - c) * q) as real && (q - d) as real * p as real == ((q - d) * p) as real;
    hide ExactFall;
  }

  lemma FallBounds(peak: Money, equity: Money)
    requires 0 <= equity <= peak
    ensures ExactFall(peak, equity) >= 0.0
    ensures ExactFall(peak, equity) == 0.0 <==> equity == peak
  {
    if peak > 0 { FallsCompare(peak, peak, peak, equity); MulLe(equity, peak, peak); }
  }

  lemma ExactDeeperFromHigherPeak(low: Money, high: Money, equity: Money)
    requires 0 <= equity <= low <= high
    ensures 0.0 <= ExactFall(low, equity) <= ExactFall(high, equity)
  {
    FallBounds(low, equity);
    FallBounds(high, equity);
    if low > 0 {
      FallsCompare(low, equity, high, equity);
      MulLe(low, high, equity);
      assert low * equity == equity * low && high * equity == equity * high;
    }
    hide ExactFall;
  }

  ghost predicate NonNegative(curve: seq<Money>) {
    forall i :: 0 <= i < |curve| ==> curve[i] >= 0
  }

  // The deepest fall is at least every fall of the curve, and one of them unless it is zero.
  lemma {:induction false} DeepestCovers(curve: seq<Money>, start: Money, m: nat)
    requires m < |curve|
    ensures DeepestFall(curve, start) >= ExactFall(PeakAfter(curve[..m + 1], start), curve[m])
    decreases |curve|
  {
    hide ExactFall;
    if m < |curve| - 1 {
      assert curve[..|curve| - 1][..m + 1] == curve[..m + 1];
      DeepestCovers(curve[..|curve| - 1], start, m);
    } else {
      assert curve[..m + 1] == curve;
    }
  }

  lemma {:induction false} DeepestIsReached(curve: seq<Money>, start: Money) returns (m: nat)
    ensures DeepestFall(curve, start) >= 0.0
    ensures DeepestFall(curve, start) > 0.0 ==>
              m < |curve| && DeepestFall(curve, start) == ExactFall(PeakAfter(curve[..m + 1], start), curve[m])
    decreases |curve|
  {
    m := 0;
    hide ExactFall;
    if curve != [] {
      var init := curve[..|curve| - 1];
      m := DeepestIsReached(init, start);
      if DeepestFall(curve, start) == DeepestFall(init, start) {
        if m < |init| { assert init[..m + 1] == curve[..m + 1]; }
      } else {
        m := |curve| - 1;
        assert curve[..m + 1] == curve;
      }
    }
  }

  // From the final peak the deepest fall is the one to the lowest point.
  lemma {:induction false} DeepestFromFinalPeak(curve: seq<Money>, finalPeak: Money, lowest: Money)
    requires curve != [] && lowest in curve
    requires forall i :: 0 <= i < |curve| ==> 0 <= lowest <= curve[i] <= finalPeak
    ensures DeepestFall(curve, finalPeak) == ExactFall(finalPeak, lowest)
  {
    var k :| 0 <= k < |curve| && curve[k] == lowest;
    FinalPeakStays(curve[..k + 1], finalPeak);
    DeepestCovers(curve, finalPeak, k);
    FallBounds(finalPeak, lowest);
    var m := DeepestIsReached(curve, finalPeak);
    if DeepestFall(curve, finalPeak) > 0.0 {
      FinalPeakStays(curve[..m + 1], finalPeak);
      if finalPeak > 0 {
        FallsCompare(finalPeak, curve[m], finalPeak, lowest);
        MulLe(lowest, curve[m], finalPeak);
      }
    }
    hide ExactFall, DeepestFall;
  }

  lemma {:induction false} FinalPeakStays(curve: seq<Money>, finalPeak: Money)
    requires forall i :: 0 <= i < |curve| ==> curve[i] <= finalPeak
    ensures PeakAfter(curve, finalPeak) == finalPeak
    decreases |curve|
  {
    if curve != [] { FinalPeakStays(curve[..|curve| - 1], finalPeak); }
  }

  // The running peak on the way to the final one.
  lemma {:induction false} PeakOnTheWay(curve: seq<Money>, start: Money, m: nat)
    requires m < |curve|
    ensures curve[m] <= PeakAfter(curve[..m + 1], start) <= PeakAfter(curve, start)
    ensures start <= PeakAfter(curve[..m + 1], start)
    decreases |curve|
  {
    if m < |curve| - 1 {
      assert curve[..|curve| - 1][..m + 1] == curve[..m + 1];
      PeakOnTheWay(curve[..|curve| - 1], start, m);
    } else {
      assert curve[..m + 1] == curve;
      PeakBounds(curve, start, start);
    }
  }

  // A point is the lowest of the curve, and the running peak there is the final one, or positive
  // while nothing is left at that point.
  ghost predicate LowestUnderItsPeak(curve: seq<Money>, capital: Money, finalPeak: Money, m: nat)
    requires m < |curve|
  {
    && (forall i :: 0 <= i < |curve| ==> curve[m] <= curve[i])
    && var peak := PeakAfter(curve[..m + 1], capital);
       peak > 0 && (peak == finalPeak || curve[m] == 0)
  }

  lemma {:induction false} ExactReportedIsAtLeastTrue(curve: seq<Money>, capital: Money, finalPeak: Money)
    requires 0 <= capital <= finalPeak && NonNegative(curve)
    ensures DeepestFall(curve, finalPeak) >= DeepestFall(curve, capital) >= 0.0
    decreases |curve|
  {
    if curve != [] {
      ExactReportedIsAtLeastTrue(curve[..|curve| - 1], capital, finalPeak);
      PeakBounds(curve, capital, finalPeak);
      ExactDeeperFromHigherPeak(PeakAfter(curve, capital), PeakAfter(curve, finalPeak), curve[|curve| - 1]);
      hide ExactFall;
    }
  }

  // Only the lowest point under the final peak, or a total loss, falls as deep.
  lemma OnlyLowestReaches(peak: Money, equity: Money, finalPeak: Money, lowest: Money)
    requires 0 <= lowest <= equity <= peak <= finalPeak && peak > 0
    requires ExactFall(peak, equity) == ExactFall(finalPeak, lowest)
    ensures equity == lowest && (peak == finalPeak || lowest == 0)
  {
    FallsCompare(peak, equity, finalPeak, lowest);
    hide ExactFall;
    assert lowest * peak == equity * finalPeak;
    MulLe(lowest, equity, finalPeak);
    MulLe(peak, finalPeak, lowest);
    assert lowest * peak == peak * lowest && lowest * finalPeak == finalPeak * lowest;
  }

  // The report has the true deepest fall if and only if the fall to the lowest point is itself one
  // from the final peak or a total loss.
  lemma ReportedIsTrueIff(curve: seq<Money>, capital: Money, finalPeak: Money)
    requires capital >= 0 && NonNegative(curve) && finalPeak == PeakAfter(curve, capital)
    ensures DeepestFall(curve, finalPeak) >= DeepestFall(curve, capital)
    ensures DeepestFall(curve, finalPeak) == DeepestFall(curve, capital)
       <==> finalPeak == 0 || curve == []
            || exists m :: 0 <= m < |curve| && LowestUnderItsPeak(curve, capital, finalPeak, m)
  {
    PeakBounds(curve, capital, capital);
    ExactReportedIsAtLeastTrue(curve, capital, finalPeak);
    hide DeepestFall, LowestUnderItsPeak, PeakAfter;
    if curve != [] && finalPeak > 0 {
      if DeepestFall(curve, finalPeak) == DeepestFall(curve, capital) { TrueOnlyIf(curve, capital, finalPeak); }
      if m :| 0 <= m < |curve| && LowestUnderItsPeak(curve, capital, finalPeak, m) {
        TrueIf(curve, capital, finalPeak, m);
      }
    } else {
      NoFall(curve, capital, finalPeak);
    }
  }

  lemma CurveBelowPeak(curve: seq<Money>, capital: Money, finalPeak: Money)
    requires finalPeak == PeakAfter(curve, capital)
    ensures forall i :: 0 <= i < |curve| ==> curve[i] <= finalPeak
  {
    forall i | 0 <= i < |curve| ensures curve[i] <= finalPeak { PeakOnTheWay(curve, capital, i); }
  }

  lemma NoFall(curve: seq<Money>, capital: Money, finalPeak: Money)
    requires capital >= 0 && NonNegative(curve) && finalPeak == PeakAfter(curve, capital)
    requires curve == [] || finalPeak <= 0
    ensures DeepestFall(curve, finalPeak) == DeepestFall(curve, capital) && (curve == [] || finalPeak == 0)
  {
    if curve != [] {
      PeakBounds(curve, capital, capital);
      CurveBelowPeak(curve, capital, finalPeak);
      var lowest := Lowest(curve);
      DeepestFromFinalPeak(curve, finalPeak, lowest);
      FallBounds(finalPeak, lowest);
      ExactReportedIsAtLeastTrue(curve, capital, finalPeak);
      hide DeepestFall, PeakAfter, ExactFall;
    }
  }

  lemma TrueOnlyIf(curve: seq<Money>, capital: Money, finalPeak: Money)
    requires capital >= 0 && NonNegative(curve) && finalPeak == PeakAfter(curve, capital) > 0 && curve != []
    requires DeepestFall(curve, finalPeak) == DeepestFall(curve, capital)
    ensures exists m :: 0 <= m < |curve| && LowestUnderItsPeak(curve, capital, finalPeak, m)
  {
    CurveBelowPeak(curve, capital, finalPeak);
    var lowest := Lowest(curve);
    DeepestFromFinalPeak(curve, finalPeak, lowest);
    FallBounds(finalPeak, lowest);
    var m := DeepestIsReached(curve, capital);
    if lowest == finalPeak { m := 0; }
    PeakOnTheWay(curve, capital, m);
    PeakIsPositive(curve, capital, m, lowest < finalPeak);
    hide DeepestFall, PeakAfter;
    OnlyLowestReaches(PeakAfter(curve[..m + 1], capital), curve[m], finalPeak, lowest);
    assert LowestUnderItsPeak(curve, capital, finalPeak, m);
  }

  lemma PeakIsPositive(curve: seq<Money>, capital: Money, m: nat, falls: bool)
    requires capital >= 0 && m < |curve| && curve[m] <= PeakAfter(curve[..m + 1], capital)
    requires capital <= PeakAfter(curve[..m + 1], capital)
    requires if falls then ExactFall(PeakAfter(curve[..m + 1], capital), curve[m]) > 0.0 else curve[m] > 0
    ensures PeakAfter(curve[..m + 1], capital) > 0
  {
    hide PeakAfter;
  }

  lemma TrueIf(curve: seq<Money>, capital: Money, finalPeak: Money, m: nat)
    requires capital >= 0 && NonNegative(curve) && finalPeak == PeakAfter(curve, capital) > 0
    requires m < |curve| && LowestUnderItsPeak(curve, capital, finalPeak, m)
    ensures DeepestFall(curve, finalPeak) == DeepestFall(curve, capital)
  {
    CurveBelowPeak(curve, capital, finalPeak);
    PeakBounds(curve, capital, capital);
    ExactReportedIsAtLeastTrue(curve, capital, finalPeak);
    DeepestFromFinalPeak(curve, finalPeak, curve[m]);
    DeepestCovers(curve, capital, m);
    FallsCompare(PeakAfter(curve[..m + 1], capital), curve[m], finalPeak, curve[m]);
    hide DeepestFall, ExactFall;
  }

  // ---- The truncated report ----

  lemma FallIsFloor(peak: Money, equity: Money)
    requires 0 <= equity <= peak
    ensures Fall(peak, equity) == (ExactFall(peak, equity) * SCALE as real).Floor
  {
    if peak > 0 {
      FallIsQuotient(peak, equity);
      FallTimesPeak(peak, equity);
      var x, r := (peak - equity) * SCALE, ExactFall(peak, equity) * SCALE as real;
      hide Fall, ExactFall;
      Split(x, peak);
      assert r * peak as real == x as real;
      FloorOfQuotient(x, peak, r, x / peak);
    }
  }

  lemma FloorOfQuotient(x: nat, p: int, r: real, q: int)
    requires p > 0 && r * p as real == x as real && q * p <= x < q * p + p
    ensures r.Floor == q
  {
    var a, b := q as real, p as real;
    assert a * b == (q * p) as real;
    if r < a { PositiveProduct(a - r, b); }
    if r >= a + 1.0 { PositiveProduct(r - (a + 1.0), b); }
    assert (a - r) * b == a * b - r * b && (r - (a + 1.0)) * b == r * b - a * b - b;
  }

  lemma PositiveProduct(x: real, y: real)
    requires x >= 0.0 && y > 0.0
    ensures x * y >= 0.0
    ensures x > 0.0 ==> x * y > 0.0
  {
  }

  // The reported number is the exact one cut off after its eighth digit.
  lemma {:induction false} DrawdownIsFloor(curve: seq<Money>, start: Money)
    requires start >= 0 && NonNegative(curve)
    ensures Drawdown(curve, start) == (DeepestFall(curve, start) * SCALE as real).Floor
    decreases |curve|
  {
    if curve != [] {
      var init, last := curve[..|curve| - 1], curve[|curve| - 1];
      DrawdownIsFloor(init, start);
      PeakBounds(curve, start, start);
      FallIsFloor(PeakAfter(curve, start), last);
      hide Fall, ExactFall;
    }
  }

  // The reported drawdown is the true one under the condition; otherwise it overstates, and shows
  // the same digits only when the two differ by less than a unit of the last one.
  lemma TruncatedReportIsTrue(curve: seq<Money>, capital: Money, finalPeak: Money)
    requires capital >= 0 && NonNegative(curve) && finalPeak == PeakAfter(curve, capital)
    ensures var exact := finalPeak == 0 || curve == []
                         || exists m :: 0 <= m < |curve| && LowestUnderItsPeak(curve, capital, finalPeak, m);
            && (exact ==> Drawdown(curve, finalPeak) == Drawdown(curve, capital))
            && (!exact && Drawdown(curve, finalPeak) == Drawdown(curve, capital)
                ==> 0.0 < (DeepestFall(curve, finalPeak) - DeepestFall(curve, capital)) * SCALE as real < 1.0)
  {
    ReportedIsTrueIff(curve, capital, finalPeak);
    PeakBounds(curve, capital, capital);
    DrawdownIsFloor(curve, finalPeak);
    DrawdownIsFloor(curve, capital);
    hide DeepestFall, Drawdown, LowestUnderItsPeak, PeakAfter;
    var a, b := DeepestFall(curve, finalPeak) * SCALE as real, DeepestFall(curve, capital) * SCALE as real;
    assert a - b == (DeepestFall(curve, finalPeak) - DeepestFall(curve, capital)) * SCALE as real;
  }

  // The peak a run hands to the report is the final peak of its curve.
  lemma {:induction false} FinalPeakOfARun<S>(
      cfg: Config, decide: (S, View) -> (S, Choice), decider: S, candles: seq<Candle>, n: nat)
    requires ValidConfig(cfg) && n <= |candles|
    ensures var run := Bars(cfg, decide, decider, candles, n);
            run.peak == PeakAfter(run.equity, cfg.initialCash)
  {
    hide Bar, PeakAfter;
    if n == 0 {
      NoPeakYet(cfg.initialCash);
    } else {
      FinalPeakOfARun(cfg, decide, decider, candles, n - 1);
      var run := Bars(cfg, decide, decider, candles, n - 1);
      BarRaisesPeak(cfg, decide, candles, n - 1, run);
      OneMoreBar(cfg, decide, decider, candles, n - 1);
    }
  }

  lemma NoPeakYet(start: Money)
    ensures PeakAfter([], start) == start
  {
  }

  lemma BarRaisesPeak<S>(cfg: Config, decide: (S, View) -> (S, Choice), candles: seq<Candle>, i: nat, run: Run<S>)
    requires ValidConfig(cfg) && i < |candles| && run.peak == PeakAfter(run.equity, cfg.initialCash)
    ensures var next := Bar(cfg, decide, candles, i, run); next.peak == PeakAfter(next.equity, cfg.initialCash)
  {
    hide ExecutePending, Equity;
    var run1 := DecideAt(cfg, decide, candles, i, ExecuteAt(cfg, candles, i, run));
    assert run1.equity == run.equity && run1.peak == run.peak;
    hide ExecuteAt, DecideAt;
    var e := Equity(cfg, run1.portfolio, candles[i].close);
    assert (run.equity + [e])[..|run.equity|] == run.equity;
  }

  // A curve that only rises has no drawdown, and is reported to have lost half.
  lemma ReportedCanOverstate()
    ensures exists curve: seq<Money>, capital: Money, finalPeak: Money ::
              && 0 <= capital <= finalPeak && finalPeak == PeakAfter(curve, capital)
              && Drawdown(curve, capital) == 0 && Drawdown(curve, finalPeak) == SCALE / 2
  {
    var curve := [SCALE, 2 * SCALE];
    assert curve[..1] == [SCALE] && curve[..1][..0] == [] && curve[..|curve| - 1] == curve[..1];
    assert PeakAfter(curve[..1], SCALE) == SCALE && PeakAfter(curve, SCALE) == 2 * SCALE;
    assert Drawdown(curve[..1], SCALE) == 0 && Drawdown(curve, SCALE) == 0;
    assert PeakAfter(curve[..1], 2 * SCALE) == 2 * SCALE;
    assert Drawdown(curve[..1], 2 * SCALE) == SCALE / 2;
    assert Drawdown(curve, 2 * SCALE) == SCALE / 2;
  }
}
