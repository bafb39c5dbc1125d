/**
 What the other writers of the order ledger do to one order under the state lock: the read-only
 monitor (src/execution/LiveOrderMonitor.ts) and the two operator resolution commands
 (src/cli/resolve-created-order-cmd.ts, src/cli/resolve-live-order-cmd.ts).
 */
module ObserverRules {
  import opened Wrappers
  import opened Money
  import opened Orders
  import P = Portfolio

  // ---- Monitor ----

  // The authoritative state under the durable local identity.
  function Adopt(current: Order, authoritative: Order): Order {
    authoritative.(
      clientOrderId := current.clientOrderId,
      reason := current.reason,
      createdAtMs := current.createdAtMs)
  }

  // ---- resolve-created-order ----

  datatype Mode = AttachMode(exchangeOrderId: string) | AbandonMode

  predicate IsUnidentified(order: Order) {
    order.exchangeOrderId.None? && order.status in {Created, Submitted, OrderStatus.Unknown}
  }

  // Exact identity of an exchange order and a local one; both commands use the same test.
  predicate SameIdentity(exchange: Order, local: Order, asserted: Option<string>) {
    && exchange.exchangeOrderId.Some?
    && SameExternalOrderId(exchange.exchangeOrderId, asserted)
    && exchange.symbol == local.symbol
    && exchange.side == local.side
    && exchange.orderType == local.orderType
    && exchange.quantity == local.quantity
    && (local.price.Some? ==> exchange.price == local.price)
  }

  // The durable details must be those of the first read.
  predicate UnchangedSince(current: Order, initial: Order) {
    && current.status == initial.status
    && current.symbol == initial.symbol
    && current.side == initial.side
    && current.orderType == initial.orderType
    && current.quantity == initial.quantity
    && current.price == initial.price
    && current.reason == initial.reason
  }

  // The locked step: what it saves, or None when it aborts.
  function ResolveCreated(current: Order, initial: Order, mode: Mode, exchange: Option<Order>): Option<Order> {
    if !IsUnidentified(current) || !UnchangedSince(current, initial) then None
    else match mode
      case AbandonMode => Some(current.(status := Abandoned, resolution := Some(Abandon)))
      case AttachMode(asserted) =>
        if exchange.None? || !SameIdentity(exchange.value, current, Some(asserted)) then None
        else Some(Adopt(current, exchange.value).(resolution := Some(Attach)))
  }

  // ---- resolve-live-order ----

  // The locked step's checks on the reloaded order against the first read and the latest evidence.
  predicate CanAttest(current: Order, initial: Order, latest: Order, orderId: string) {
    && current.exchangeOrderId.Some?
    && SameExternalOrderId(current.exchangeOrderId, Some(orderId))
    && current.symbol == initial.symbol && current.side == initial.side && current.orderType == initial.orderType
    && current.quantity == initial.quantity && current.price == initial.price
    && SameIdentity(latest, current, current.exchangeOrderId)
    && latest.filledQuantity == current.quantity
    && latest.averagePrice.Some? && latest.averagePrice.value > 0
  }

  function AttestationOf(current: Order, latest: Order, orderId: string, fee: Money): P.Attestation
    requires latest.averagePrice.Some?
  {
    P.Attestation(orderId, current.symbol, current.side, latest.filledQuantity, latest.averagePrice.value, fee)
  }

  function Attested(current: Order, latest: Order, fee: Money): Order {
    current.(status := Filled, filledQuantity := latest.filledQuantity, averagePrice := latest.averagePrice,
             fee := fee, feeCurrency := QuoteFee)
  }
}
