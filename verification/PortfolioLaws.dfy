/**
 What every portfolio operation keeps: the aggregate reserved pool is exactly the sum of the
 active order reservations, it never exceeds the cash behind it, and one exchange order is
 never accounted by two manual intents.
 */
module PortfolioLaws {
  import opened Wrappers
  import opened Money
  import opened Orders
  import opened Portfolio
  import opened Sums

  // ---- The sum of the active reservations in one currency ----

  function Share(r: Reservation, currency: string): Money {
    if r.active && r.currency == currency then r.remaining else 0
  }

  ghost function Shares(rs: map<string, Reservation>, currency: string): map<string, int> {
    map id | id in rs :: Share(rs[id], currency)
  }

  ghost function ActiveTotal(rs: map<string, Reservation>, currency: string): Money {
    Total(Shares(rs, currency))
  }

  lemma ActiveTotalUpdate(rs: map<string, Reservation>, id: string, r: Reservation, currency: string)
    ensures ActiveTotal(rs[id := r], currency)
         == ActiveTotal(rs, currency) - (if id in rs then Share(rs[id], currency) else 0) + Share(r, currency)
  {
    TotalUpdate(Shares(rs, currency), id, Share(r, currency));
    assert Shares(rs[id := r], currency) == Shares(rs, currency)[id := Share(r, currency)];
  }

  // ---- The two invariants ----

  ghost predicate Pooled(p: Portfolio) {
    && (forall id :: id in p.reservations ==> 0 <= p.reservations[id].remaining <= p.reservations[id].amount)
    && (forall c :: p.Reserved(c) == ActiveTotal(p.reservations, c))
  }

  // No quote is committed twice: the commitments fit the cash.
  ghost predicate Backed(p: Portfolio, currency: string) {
    p.Reserved(currency) <= p.Cash(currency)
  }

  lemma EmptyIsPooled(p: Portfolio)
    requires p.reservations == map[] && p.reserved == map[]
    ensures Pooled(p)
  {
  }

  // The accounting ledgers have no part in either invariant.
  lemma PooledSame(start: Portfolio, p: Portfolio, q: Portfolio, quote: string, any: string, affordable: bool)
    requires Pooled(p) && q.reservations == p.reservations && q.reserved == p.reserved && q.cash == p.cash
    ensures Pooled(q)
    ensures BackedExactlyWhen(start, p, quote, any, affordable) ==> BackedExactlyWhen(start, q, quote, any, affordable)
  {
  }

  // One reservation changes and the pool moves by the same amount.
  lemma PooledAfter(p: Portfolio, q: Portfolio, id: string, r: Reservation)
    requires Pooled(p)
    requires q.reservations == p.reservations[id := r] && 0 <= r.remaining <= r.amount
    requires forall c ::
               q.Reserved(c)
               == p.Reserved(c) - (if id in p.reservations then Share(p.reservations[id], c) else 0) + Share(r, c)
    ensures Pooled(q)
  {
    forall c ensures q.Reserved(c) == ActiveTotal(q.reservations, c) {
      ActiveTotalUpdate(p.reservations, id, r, c);
    }
  }

  lemma ReserveOrderKeeps(p: Portfolio, id: string, currency: string, amount: Money, any: string)
    requires Pooled(p) && ReserveOrder(p, id, currency, amount).Success?
    ensures Pooled(ReserveOrder(p, id, currency, amount).value)
    ensures Backed(p, any) ==> Backed(ReserveOrder(p, id, currency, amount).value, any)
  {
    PooledAfter(p, ReserveOrder(p, id, currency, amount).value, id, Reservation(currency, amount, amount, true));
  }

  lemma ReleaseOrderReservationKeeps(p: Portfolio, id: string, any: string)
    requires Pooled(p)
    ensures Pooled(ReleaseOrderReservation(p, id))
    ensures Backed(p, any) ==> Backed(ReleaseOrderReservation(p, id), any)
    ensures p.DeployableQuote(any) <= ReleaseOrderReservation(p, id).DeployableQuote(any)
  {
    if p.HasActiveReservation(id) {
      PooledAfter(p, ReleaseOrderReservation(p, id), id, p.reservations[id].(remaining := 0, active := false));
    }
  }

  // The pool release of `Consume` is never the silent no-op of `ReleaseQuote`, because the
  // order's own remaining amount is part of the pool.
  lemma ConsumeKeepsPool(p: Portfolio, id: string, cost: Money)
    requires Pooled(p) && Consume(p, id, cost).Success?
    ensures Pooled(Consume(p, id, cost).value)
    ensures p.HasActiveReservation(id) && 0 < cost <= p.reservations[id].remaining
    ensures var r := p.reservations[id];
            Consume(p, id, cost).value == p.(
              reserved := p.reserved[r.currency := p.Reserved(r.currency) - cost],
              reservations := p.reservations[id := r.(remaining := r.remaining - cost)])
  {
    var r := p.reservations[id];
    TotalAtLeast(Shares(p.reservations, r.currency), id);
    PooledAfter(p, Consume(p, id, cost).value, id, r.(remaining := r.remaining - cost));
  }

  lemma ApplyFillKeepsReservations(p: Portfolio, symbol: Symbol, side: Side, quantity: Money, price: Money, fee: Money)
    requires ApplyFill(p, symbol, side, quantity, price, fee).Success?
    ensures var q := ApplyFill(p, symbol, side, quantity, price, fee).value;
            var delta := if side == Buy then -(Mul(quantity, price) + fee) else Mul(quantity, price) - fee;
            && q.reservations == p.reservations && q.reserved == p.reserved
            && q.applied == p.applied && q.settlements == p.settlements && q.attestations == p.attestations
            && q.cash == p.cash[symbol.quote := p.Cash(symbol.quote) + delta]
  {
  }

  // The quote a fill takes out of the cash.
  function Outflow(side: Side, quantity: Money, price: Money, fee: Money): Money {
    if side == Buy then Mul(quantity, price) + fee else fee - Mul(quantity, price)
  }

  // A fill leaves the commitments in its quote currency funded exactly when the outflow is paid
  // by the order's own reservation in that currency or fits the uncommitted cash.
  predicate Affordable(p: Portfolio, orderId: string, symbol: Symbol, side: Side, outflow: Money) {
    || (side == Buy && p.HasActiveReservation(orderId) && p.reservations[orderId].currency == symbol.quote)
    || outflow <= p.Cash(symbol.quote) - p.Reserved(symbol.quote)
  }

  ghost predicate BackedExactlyWhen(p: Portfolio, q: Portfolio, quote: string, any: string, affordable: bool) {
    Backed(p, any) ==> if any == quote then Backed(q, any) <==> affordable else Backed(q, any)
  }

  // A purchase paid from its own reservation lowers the cash and the pool by the same amount.
  lemma PaidFromReservation(p: Portfolio, filled: Portfolio, id: string, quote: string, cost: Money, any: string)
    requires Pooled(p)
    requires filled.reservations == p.reservations && filled.reserved == p.reserved
    requires filled.cash == p.cash[quote := p.Cash(quote) - cost]
    requires Consume(filled, id, cost).Success?
    ensures Pooled(Consume(filled, id, cost).value)
    ensures Consume(filled, id, cost).value.cash == filled.cash
    ensures Consume(filled, id, cost).value.HasActiveReservation(id)
    ensures BackedExactlyWhen(p, Consume(filled, id, cost).value, quote, any,
              p.reservations[id].currency == quote || cost <= p.Cash(quote) - p.Reserved(quote))
  {
    assert Pooled(filled);
    ConsumeKeepsPool(filled, id, cost);
  }

  // A purchase without a reservation, or a sale, moves the cash alone.
  lemma PaidFromCash(p: Portfolio, q: Portfolio, quote: string, outflow: Money, any: string)
    requires Pooled(p)
    requires q.reservations == p.reservations && q.reserved == p.reserved
    requires q.cash == p.cash[quote := p.Cash(quote) - outflow]
    ensures Pooled(q)
    ensures BackedExactlyWhen(p, q, quote, any, outflow <= p.Cash(quote) - p.Reserved(quote))
  {
  }

  // A new execution is a fill, paid from the order's reservation when it is a purchase that has one.
  lemma LiveFillParts(p: Portfolio, orderId: string, symbol: Symbol, side: Side, fill: Fill)
    requires ApplyLiveFill(p, orderId, symbol, side, fill).Success?
    requires fill.executionId.value !in p.applied
    ensures ApplyFill(p, symbol, side, fill.quantity, fill.price, fill.fee).Success?
    ensures var q := ApplyLiveFill(p, orderId, symbol, side, fill).value;
            var filled := ApplyFill(p, symbol, side, fill.quantity, fill.price, fill.fee).value;
            var cost := Mul(fill.quantity, fill.price) + fill.fee;
            var record := AppliedExecution(orderId, symbol, side, fill.quantity, fill.price, fill.fee);
            if side == Buy && p.HasActiveReservation(orderId)
            then Consume(filled, orderId, cost).Success?
                 && q == Consume(filled, orderId, cost).value.(applied := q.applied)
                 && q.applied == Consume(filled, orderId, cost).value.applied[fill.executionId.value := record]
            else q == filled.(applied := filled.applied[fill.executionId.value := record])
  {
    hide Mul, ApplyFill, Consume;
  }

  lemma ApplyLiveFillKeeps(p: Portfolio, orderId: string, symbol: Symbol, side: Side, fill: Fill, any: string)
    requires Pooled(p)
    requires ApplyLiveFill(p, orderId, symbol, side, fill).Success?
    requires fill.executionId.value !in p.applied
    ensures var q := ApplyLiveFill(p, orderId, symbol, side, fill).value;
            && Pooled(q)
            && BackedExactlyWhen(p, q, symbol.quote, any,
                 Affordable(p, orderId, symbol, side, Outflow(side, fill.quantity, fill.price, fill.fee)))
  {
    LiveFillParts(p, orderId, symbol, side, fill);
    ApplyFillKeepsReservations(p, symbol, side, fill.quantity, fill.price, fill.fee);
    var q := ApplyLiveFill(p, orderId, symbol, side, fill).value;
    var filled := ApplyFill(p, symbol, side, fill.quantity, fill.price, fill.fee).value;
    hide Mul, ApplyFill, Consume, ApplyLiveFill, Pooled, BackedExactlyWhen;
    var outflow := Outflow(side, fill.quantity, fill.price, fill.fee);
    var affordable := Affordable(p, orderId, symbol, side, outflow);
    if side == Buy && p.HasActiveReservation(orderId) {
      var paid := Consume(filled, orderId, outflow).value;
      PaidFromReservation(p, filled, orderId, symbol.quote, outflow, any);
      assert q.reservations == paid.reservations && q.reserved == paid.reserved && q.cash == paid.cash;
      hide Outflow;
      PooledSame(p, paid, q, symbol.quote, any, affordable);
    } else {
      PaidFromCash(p, q, symbol.quote, outflow, any);
    }
  }

  lemma PaidAndReleased(p: Portfolio, filled: Portfolio, id: string, quote: string, cost: Money, any: string)
    requires Pooled(p)
    requires filled.reservations == p.reservations && filled.reserved == p.reserved
    requires filled.cash == p.cash[quote := p.Cash(quote) - cost]
    requires Consume(filled, id, cost).Success?
    ensures var q := ReleaseOrderReservation(Consume(filled, id, cost).value, id);
            && Pooled(q)
            && id in q.reservations && !q.reservations[id].active
            && BackedExactlyWhen(p, q, quote, any,
                 p.reservations[id].currency == quote || cost <= p.Cash(quote) - p.Reserved(quote))
  {
    PaidFromReservation(p, filled, id, quote, cost, any);
    var consumed := Consume(filled, id, cost).value;
    PooledAfter(consumed, ReleaseOrderReservation(consumed, id), id,
        consumed.reservations[id].(remaining := 0, active := false));
  }

  // A settlement is a fill; a purchase is then paid from its reservation, whose rest is released.
  lemma SettleReservedParts(
      p: Portfolio, id: string, symbol: Symbol, side: Side, quantity: Money, price: Money, fee: Money)
    requires SettleReserved(p, id, symbol, side, quantity, price, fee).Success?
    ensures ApplyFill(p, symbol, side, quantity, price, fee).Success?
    ensures var q := SettleReserved(p, id, symbol, side, quantity, price, fee).value;
            var filled := ApplyFill(p, symbol, side, quantity, price, fee).value;
            var cost := Mul(quantity, price) + fee;
            if side == Buy
            then p.HasActiveReservation(id) && Consume(filled, id, cost).Success?
                 && q == ReleaseOrderReservation(Consume(filled, id, cost).value, id)
            else q == filled
  {
    hide Mul, ApplyFill, Consume, ReleaseOrderReservation;
  }

  lemma SettleReservedKeeps(
      p: Portfolio, id: string, symbol: Symbol, side: Side, quantity: Money, price: Money, fee: Money, any: string)
    requires Pooled(p)
    requires SettleReserved(p, id, symbol, side, quantity, price, fee).Success?
    ensures var q := SettleReserved(p, id, symbol, side, quantity, price, fee).value;
            && Pooled(q)
            && BackedExactlyWhen(p, q, symbol.quote, any,
                Affordable(p, id, symbol, side, Outflow(side, quantity, price, fee)))
            && (side == Buy ==> id in q.reservations && !q.reservations[id].active)
  {
    SettleReservedParts(p, id, symbol, side, quantity, price, fee);
    ApplyFillKeepsReservations(p, symbol, side, quantity, price, fee);
    var filled := ApplyFill(p, symbol, side, quantity, price, fee).value;
    var outflow := Outflow(side, quantity, price, fee);
    assert filled.cash == p.cash[symbol.quote := p.Cash(symbol.quote) - outflow];
    hide Mul, ApplyFill, Pooled, SettleReserved, Consume, ReleaseOrderReservation, BackedExactlyWhen;
    if side == Buy {
      assert outflow == Mul(quantity, price) + fee && p.HasActiveReservation(id);
      hide Outflow;
      PaidAndReleased(p, filled, id, symbol.quote, outflow, any);
    } else {
      hide Outflow;
      PaidFromCash(p, filled, symbol.quote, outflow, any);
    }
  }

  lemma SettleManualOrderKeeps(p: Portfolio, intentId: string, s: Settlement, any: string)
    requires Pooled(p) && SettleManualOrder(p, intentId, s).Success?
    ensures var q := SettleManualOrder(p, intentId, s).value;
            && Pooled(q)
            && (intentId in p.settlements ==> q == p)
            && (intentId !in p.settlements ==>
                  BackedExactlyWhen(p, q, s.symbol.quote, any,
                    Affordable(p, intentId, s.symbol, s.side, Outflow(s.side, s.quantity, s.price, s.fee))))
  {
    if intentId !in p.settlements {
      SettleReservedKeeps(p, intentId, s.symbol, s.side, s.quantity, s.price, s.fee, any);
    }
  }

  lemma SettleLiveOrderAttestedKeeps(
      p: Portfolio, id: string, orderQuantity: Money, a: Attestation, feeCurrency: FeeCurrency, any: string)
    requires Pooled(p) && SettleLiveOrderAttested(p, id, orderQuantity, a, feeCurrency).Success?
    ensures var q := SettleLiveOrderAttested(p, id, orderQuantity, a, feeCurrency).value;
            && Pooled(q)
            && (id in p.attestations ==> q == p)
            && (id !in p.attestations ==>
                  BackedExactlyWhen(p, q, a.symbol.quote, any,
                    Affordable(p, id, a.symbol, a.side, Outflow(a.side, a.quantity, a.price, a.fee))))
  {
    if id !in p.attestations {
      SettleReservedKeeps(p, id, a.symbol, a.side, a.quantity, a.price, a.fee, any);
    }
  }

  // A sale whose fee exceeds its proceeds is accepted, and leaves a commitment unfunded.
  lemma SaleCanUnfundACommitment()
    ensures exists p: Portfolio, fill: Fill, s: Symbol ::
              && Pooled(p) && Backed(p, s.quote)
              && ApplyLiveFill(p, "live-1", s, Sell, fill).Success?
              && !Backed(ApplyLiveFill(p, "live-1", s, Sell, fill).value, s.quote)
  {
    var s := Symbol("BTC", "CAD");
    var start := EMPTY.(cash := map["CAD" := SCALE], positions := map[s := Position(SCALE, SCALE, SCALE, None)]);
    EmptyIsPooled(start);
    ReserveOrderKeeps(start, "manual-1", "CAD", SCALE, "CAD");
    var p := ReserveOrder(start, "manual-1", "CAD", SCALE).value;
    var fill := Fill(1, SCALE, 2, QuoteFee, Some("e1"));
    assert Mul(SCALE, 1) == 1;
    assert ApplyLiveFill(p, "live-1", s, Sell, fill).value.Cash("CAD") == SCALE - 1;
  }

  // ---- One exchange order, one manual intent ----

  ghost predicate OneIntentPerExchangeOrder(p: Portfolio) {
    forall i, j :: i in p.settlements && j in p.settlements && i != j && p.settlements[i].orderId.Some?
      ==> !SameExternalOrderId(p.settlements[i].orderId, p.settlements[j].orderId)
  }

  lemma SettleManualOrderKeepsOrdersApart(p: Portfolio, intentId: string, s: Settlement)
    requires OneIntentPerExchangeOrder(p) && SettleManualOrder(p, intentId, s).Success?
    ensures OneIntentPerExchangeOrder(SettleManualOrder(p, intentId, s).value)
  {
    if intentId !in p.settlements {
      SettleReservedFrame(p, intentId, s.symbol, s.side, s.quantity, s.price, s.fee);
    }
  }

  lemma SettleReservedFrame(
      p: Portfolio, id: string, symbol: Symbol, side: Side, quantity: Money, price: Money, fee: Money)
    requires SettleReserved(p, id, symbol, side, quantity, price, fee).Success?
    ensures var q := SettleReserved(p, id, symbol, side, quantity, price, fee).value;
            && q.settlements == p.settlements && q.applied == p.applied && q.attestations == p.attestations
            && q.reservations.Keys == p.reservations.Keys
            && (forall i :: i in p.reservations && i != id ==> q.reservations[i] == p.reservations[i])
  {
    ApplyFillKeepsReservations(p, symbol, side, quantity, price, fee);
  }
}
