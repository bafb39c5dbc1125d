/**
 The durable managed state and the submission hooks that read and write it
 (src/execution/liveHooks.ts): the mutation-boundary guard and the managed-quote reservation.
 */
module ManagedStore {
  import opened Wrappers
  import opened Money
  import opened Orders
  import P = Portfolio

  // What a load of the live-managed state file reports.
  datatype Stored = Missing | Corrupt | Loaded(portfolio: P.Portfolio)

  datatype Refusal = StateCorrupt | StateMissing | PositionTooSmall | CannotReserve

  const FRACTION_SCALE: int := 1_000_000_000

  // Limit notional plus the conservative taker fee: the most the order can cost.
  function QuoteCost(order: NewOrder, taker: int): Money {
    var notional := Mul(order.quantity, if order.price.Some? then order.price.value else 0);
    notional + if taker <= 0 then 0 else MulFraction(notional, taker, FRACTION_SCALE)
  }

  // buildManagedOrderGuard: a fresh reload must still cover the exact order.
  function GuardBlock(stored: Stored, order: NewOrder): Option<Refusal> {
    match stored
    case Corrupt => Some(StateCorrupt)
    case Missing => Some(StateMissing)
    case Loaded(p) =>
      if order.side == Sell && p.Held(order.symbol) < order.quantity then Some(PositionTooSmall) else None
  }

  // The reservation hook: reload, reserve the exact cost, save.
  function ReserveQuote(stored: Stored, taker: int, order: NewOrder, saved: bool): (Stored, Option<Refusal>) {
    match stored
    case Corrupt => (stored, Some(StateCorrupt))
    case Missing => (stored, Some(StateMissing))
    case Loaded(p) =>
      var r := P.ReserveOrder(p, order.clientOrderId, order.symbol.quote, QuoteCost(order, taker));
      if r.Failure? || !saved then (stored, Some(CannotReserve)) else (Loaded(r.value), None)
  }

  // The release hook: best effort, and idempotent.
  function ReleaseQuote(stored: Stored, order: NewOrder, saved: bool): Stored {
    if stored.Loaded? && saved then Loaded(P.ReleaseOrderReservation(stored.portfolio, order.clientOrderId)) else stored
  }

  predicate Active(stored: Stored, id: string) {
    stored.Loaded? && stored.portfolio.HasActiveReservation(id)
  }

  // The exact cost of the order is set aside for it, untouched.
  predicate FullyReserved(stored: Stored, taker: int, order: NewOrder) {
    && stored.Loaded?
    && order.clientOrderId in stored.portfolio.reservations
    && stored.portfolio.reservations[order.clientOrderId]
         == P.Reservation(order.symbol.quote, QuoteCost(order, taker), QuoteCost(order, taker), true)
  }

  // What a release and a reservation leave alone.
  ghost predicate SameReservation(before: Stored, after: Stored, id: string) {
    (before.Loaded? && id in before.portfolio.reservations)
    ==> after.Loaded? && id in after.portfolio.reservations
        && after.portfolio.reservations[id] == before.portfolio.reservations[id]
  }

  lemma ReleaseLeavesOthers(stored: Stored, order: NewOrder, saved: bool, id: string)
    ensures id != order.clientOrderId ==> SameReservation(stored, ReleaseQuote(stored, order, saved), id)
  {
  }

  lemma ReserveLeavesOthers(stored: Stored, taker: int, order: NewOrder, saved: bool, id: string)
    ensures SameReservation(stored, ReserveQuote(stored, taker, order, saved).0, id)
  {
    hide QuoteCost;
  }

  lemma BlockedWithoutCost(stored: Stored, taker: int, order: NewOrder, saved: bool)
    requires QuoteCost(order, taker) <= 0
    ensures ReserveQuote(stored, taker, order, saved).1.Some?
  {
  }

  lemma ReservedByFund(stored: Stored, taker: int, order: NewOrder, saved: bool)
    requires ReserveQuote(stored, taker, order, saved).1.None?
    ensures FullyReserved(ReserveQuote(stored, taker, order, saved).0, taker, order)
  {
  }
}
