/**
 The two durable stores every live process writes: the order ledger
 (src/persistence/OrderStore.ts) and the managed portfolio with the reservation hooks over it
 (src/execution/liveHooks.ts). A save is atomic: it replaces the file or leaves it as it was.
 */
module StateStores {
  import opened Wrappers
  import opened Money
  import opened Orders
  import opened ManagedStore
  import P = Portfolio

  // The durable order ledger; a save can fail and then leaves the file as it was.
  class OrderStore {
    var orders: Ledger

    constructor (orders: Ledger)
      ensures this.orders == orders
    {
      this.orders := orders;
    }

    method Save(order: Order, succeeds: bool) returns (ok: bool)
      modifies this
      ensures ok == succeeds
      ensures orders == if ok then old(orders)[order.clientOrderId := order] else old(orders)
    {
      ok := succeeds;
      if ok { orders := orders[order.clientOrderId := order]; }
    }
  }

  // The durable managed portfolio and the submission hooks over it.
  class ManagedStateStore {
    var stored: Stored

    constructor (stored: Stored)
      ensures this.stored == stored
    {
      this.stored := stored;
    }

    method Reserve(taker: int, order: NewOrder, succeeds: bool) returns (block: Option<Refusal>)
      modifies this
      ensures (stored, block) == ReserveQuote(old(stored), taker, order, succeeds)
    {
      if stored.Corrupt? { return Some(StateCorrupt); }
      if stored.Missing? { return Some(StateMissing); }
      var notional := Mul(order.quantity, if order.price.Some? then order.price.value else 0);
      var fee := if taker <= 0 then 0 else MulFraction(notional, taker, FRACTION_SCALE);
      var next := P.ReserveOrder(stored.portfolio, order.clientOrderId, order.symbol.quote, notional + fee);
      if next.Failure? || !succeeds { return Some(CannotReserve); }
      stored := Loaded(next.value);
      block := None;
    }

    method Save(portfolio: P.Portfolio)
      modifies this
      ensures stored == Loaded(portfolio)
    {
      stored := Loaded(portfolio);
    }

    method Release(order: NewOrder, succeeds: bool)
      modifies this
      ensures stored == ReleaseQuote(old(stored), order, succeeds)
    {
      if stored.Loaded? && succeeds {
        stored := Loaded(P.ReleaseOrderReservation(stored.portfolio, order.clientOrderId));
      }
    }
  }
}
