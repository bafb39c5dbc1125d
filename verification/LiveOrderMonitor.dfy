/**
 `LiveOrderMonitor.monitorOnce` (src/execution/LiveOrderMonitor.ts): the locked phase that adopts
 authoritative order states, books proven executions and releases reservations, from evidence
 read before the lock was taken. The loops of the original are methods proved against folds over
 the orders and their trades; the lemmas say what those folds guarantee.
 */
module LiveOrderMonitor {
  import opened Wrappers
  import opened Money
  import opened Orders
  import opened ManagedStore
  import opened ObserverRules
  import opened StateStores
  import P = Portfolio

  // An execution of the account's trade history; an id the exchange left out is "".
  datatype Trade = Trade(
    executionId: string,
    orderId: string,
    symbol: Symbol,
    side: Side,
    quantity: Money,
    price: Money,
    fee: Money,
    feeProductId: string)

  datatype Products = Products(quote: Option<string>, base: Option<string>)

  datatype Evidence = Evidence(authoritative: Order, executions: seq<Trade>, market: Option<Products>)

  // ---- Correlation and fees (src/reconcile/executionCorrelation.ts, feeDisposition.ts) ----

  predicate Usable(t: Trade) {
    t.executionId != "" && t.orderId != "" && t.quantity > 0 && t.price > 0 && t.fee >= 0
  }

  predicate Owns(o: Order, t: Trade) {
    && o.exchangeOrderId.Some? && o.exchangeOrderId.value != ""
    && SameExternalOrderId(o.exchangeOrderId, Some(t.orderId))
    && o.symbol == t.symbol && o.side == t.side
  }

  // The execution provably belongs to this order and to no other.
  predicate ProvenFor(t: Trade, orders: Ledger, id: string) {
    Usable(t) && id in orders && Owns(orders[id], t)
        && forall other :: other in orders && Owns(orders[other], t) ==> other == id
  }

  method CorrelateExecution(t: Trade, orders: Ledger) returns (owner: Option<string>)
    ensures owner.Some? ==> ProvenFor(t, orders, owner.value)
    ensures owner.None? ==> forall id :: id in orders ==> !ProvenFor(t, orders, id)
  {
    if !Usable(t) { return None; }
    var matches: seq<string> := [];
    var left := orders.Keys;
    while left != {}
      invariant left <= orders.Keys
      invariant forall i :: 0 <= i < |matches| ==>
                  matches[i] in orders && matches[i] !in left && Owns(orders[matches[i]], t)
      invariant forall i, j :: 0 <= i < j < |matches| ==> matches[i] != matches[j]
      invariant forall id :: id in orders && id !in left && Owns(orders[id], t) ==> id in matches
      decreases |left|
    {
      var id :| id in left;
      left := left - {id};
      if Owns(orders[id], t) { matches := matches + [id]; }
    }
    if |matches| != 1 {
      if |matches| > 1 { assert matches[0] in orders && matches[1] in orders; }
      return None;
    }
    owner := Some(matches[0]);
  }

  // Only a zero fee or one authoritatively in the quote asset is accounted automatically.
  predicate FeeAutomatable(t: Trade, market: Option<Products>) {
    t.fee == 0 || (t.fee > 0 && market.Some? && t.feeProductId != "" && market.value.quote == Some(t.feeProductId))
  }

  function FillOf(t: Trade): P.Fill {
    P.Fill(t.price, t.quantity, t.fee, QuoteFee, Some(t.executionId))
  }

  // ---- Booking the trades of one order ----

  datatype Progress = Progress(portfolio: P.Portfolio, booked: set<string>, dirty: bool)

  predicate Overdraws(p: P.Portfolio, current: Order, t: Trade) {
    && current.side == Buy && !p.HasActiveReservation(current.clientOrderId)
    && Mul(t.quantity, t.price) + t.fee > p.DeployableQuote(current.symbol.quote)
  }

  function BookTrade(s: Progress, current: Order, snapshot: Ledger, market: Option<Products>, t: Trade): Progress {
    if !ProvenFor(t, snapshot, current.clientOrderId) || t.executionId in s.booked
       || t.executionId in s.portfolio.applied
       || !FeeAutomatable(t, market) || Overdraws(s.portfolio, current, t)
    then s
    else
      var r := P.ApplyLiveFill(s.portfolio, current.clientOrderId, current.symbol, current.side, FillOf(t));
      if r.Failure? then s else Progress(r.value, s.booked + {t.executionId}, true)
  }

  function BookTrades(s: Progress, current: Order, snapshot: Ledger, market: Option<Products>, ts: seq<Trade>): Progress
    decreases |ts|
  {
    if ts == [] then s
    else BookTrade(BookTrades(s, current, snapshot, market, ts[..|ts| - 1]), current, snapshot, market, ts[|ts| - 1])
  }

  function ProvenQuantity(id: string, snapshot: Ledger, ts: seq<Trade>): Money
    decreases |ts|
  {
    if ts == [] then 0
    else ProvenQuantity(id, snapshot, ts[..|ts| - 1])
         + if ProvenFor(ts[|ts| - 1], snapshot, id) then ts[|ts| - 1].quantity else 0
  }

  // ---- The reservation (src/reconcile/reservationReconciliation.ts, completeness.ts) ----

  predicate Complete(filled: Money, proven: Money) {
    filled <= 0 && proven == 0
  }

  predicate ReleaseAllowed(status: OrderStatus, filled: Money, proven: Money) {
    || ((status == Canceled || status == OrderStatus.Rejected || status == Expired) && proven == 0)
    || (status == Filled && Complete(filled, proven))
  }

  // ---- One order, and the whole pass ----

  datatype Pass = Pass(orders: Ledger, progress: Progress)

  function Observe(pass: Pass, snapshot: Ledger, id: string, ev: Evidence): Pass {
    if id !in snapshot || !Observable(snapshot[id].status) then pass
    else
      var current := snapshot[id];
      var updated := Adopt(current, ev.authoritative);
      var s := BookTrades(pass.progress, current, snapshot, ev.market, ev.executions);
      var release := id in s.portfolio.reservations
                     && ReleaseAllowed(updated.status, updated.filledQuantity,
                         ProvenQuantity(id, snapshot, ev.executions));
      Pass(pass.orders[current.clientOrderId := updated],
           if release then s.(portfolio := P.ReleaseOrderReservation(s.portfolio, current.clientOrderId), dirty := true)
           else s)
  }

  function ObserveAll(pass: Pass, snapshot: Ledger, evidence: map<string, Evidence>, ids: seq<string>): Pass
    decreases |ids|
  {
    if ids == [] then pass
    else
      var rest := ObserveAll(pass, snapshot, evidence, ids[..|ids| - 1]);
      var id := ids[|ids| - 1];
      if id in evidence then Observe(rest, snapshot, id, evidence[id]) else rest
  }

  function Begin(orders: Ledger, stored: Stored): Pass {
    Pass(orders, Progress(if stored.Loaded? then stored.portfolio else P.EMPTY, {}, false))
  }

  class LiveOrderMonitor {
    const orders: OrderStore
    const live: ManagedStateStore

    constructor (orders: OrderStore, live: ManagedStateStore)
      ensures this.orders == orders && this.live == live
    {
      this.orders, this.live := orders, live;
    }

    // The second phase of `monitorOnce`, under the state lock. `ids` are the unresolved orders of
    // the first phase in their order; a crash can keep the portfolio from being written.
    method Apply(ids: seq<string>, evidence: map<string, Evidence>, crashes: bool) returns (corrupt: bool)
      requires forall id :: id in orders.orders ==> orders.orders[id].clientOrderId == id
      modifies orders, live
      ensures corrupt == old(live.stored).Corrupt?
      ensures corrupt ==> orders.orders == old(orders.orders) && live.stored == old(live.stored)
      ensures !corrupt ==>
                var end := ObserveAll(Begin(old(orders.orders), old(live.stored)), old(orders.orders), evidence, ids);
                && orders.orders == end.orders
                && live.stored
                    == if end.progress.dirty && !crashes then Loaded(end.progress.portfolio) else old(live.stored)
    {
      var snapshot := orders.orders;
      if live.stored.Corrupt? { return true; }
      corrupt := false;
      ghost var begin := Begin(snapshot, live.stored);
      var s := Progress(if live.stored.Loaded? then live.stored.portfolio else P.EMPTY, {}, false);
      for i := 0 to |ids|
        invariant live.stored == old(live.stored)
        invariant Pass(orders.orders, s) == ObserveAll(begin, snapshot, evidence, ids[..i])
      {
        assert ids[..i + 1][..i] == ids[..i];
        var id := ids[i];
        if id in evidence && id in snapshot && Observable(snapshot[id].status) {
          var current := snapshot[id];
          var updated := Adopt(current, evidence[id].authoritative);
          var saved := orders.Save(updated, true);
          var proven;
          s, proven := BookExecutions(s, current, snapshot, evidence[id]);
          if id in s.portfolio.reservations && ReleaseAllowed(updated.status, updated.filledQuantity, proven) {
            s := s.(portfolio := P.ReleaseOrderReservation(s.portfolio, id), dirty := true);
          }
        }
      }
      assert ids[..|ids|] == ids;
      if s.dirty && !crashes { live.Save(s.portfolio); }
    }

    // The inner loop over the account's executions.
    method BookExecutions(
        start: Progress, current: Order, snapshot: Ledger, ev: Evidence) returns (s: Progress, proven: Money)
      ensures s == BookTrades(start, current, snapshot, ev.market, ev.executions)
      ensures proven == ProvenQuantity(current.clientOrderId, snapshot, ev.executions)
    {
      s, proven := start, 0;
      for i := 0 to |ev.executions|
        invariant s == BookTrades(start, current, snapshot, ev.market, ev.executions[..i])
        invariant proven == ProvenQuantity(current.clientOrderId, snapshot, ev.executions[..i])
      {
        assert ev.executions[..i + 1][..i] == ev.executions[..i];
        var t := ev.executions[i];
        var owner := CorrelateExecution(t, snapshot);
        if owner == Some(current.clientOrderId) {
          proven := proven + t.quantity;
          if t.executionId !in s.booked && t.executionId !in s.portfolio.applied && FeeAutomatable(t, ev.market)
             && !Overdraws(s.portfolio, current, t)
          {
            var r := P.ApplyLiveFill(s.portfolio, current.clientOrderId, current.symbol, current.side, FillOf(t));
            if r.Success? { s := Progress(r.value, s.booked + {t.executionId}, true); }
          }
        }
      }
      assert ev.executions[..|ev.executions|] == ev.executions;
    }
  }
}
