/**
 The checks of a live submission and the records it writes (src/execution/LiveExecutionEngine.ts):
 `validateOrder`, the one-in-flight guard, and the classification of the exchange's answer.
 Exchange reads are parameters, a failed read is `None`.
 */
module SubmissionRules {
  import opened Wrappers
  import opened Money
  import opened Orders
  import opened ManagedStore

  datatype Config = Config(
    autonomous: bool,            // an armed autonomous session is configured
    managedGuard: bool,          // the managed-state guard is configured
    reservation: Option<int>,    // the reserve/release hooks, with their market's taker rate over 10^9
    maxLiveQuoteNotional: Money,
    maxLiveBaseQuantity: Money)
  {
    predicate Reserves(order: NewOrder) {
      reservation.Some? && order.side == Buy
    }
  }

  datatype MarketInfo = MarketInfo(
    priceTick: Money,
    quantityTick: Money,
    minOrderBase: Option<Money>,
    minOrderQuote: Option<Money>,
    taker: int)

  datatype Reads = Reads(
    market: Option<MarketInfo>,
    available: Option<map<string, Money>>,
    ticker: bool)

  datatype GateError =
    | NotLimit
    | NotIoc
    | NonPositiveQuantity
    | ReadFailed
    | TooLarge
    | OffGrid
    | TooSmall
    | NoPrice
    | ExposureTooLarge
    | InsufficientBalance

  predicate OnGrid(value: Money, tick: Money) {
    tick == 0 || (tick > 0 && IsMultipleOf(value, tick))
  }

  function ValidateOrder(cfg: Config, order: NewOrder, seen: Reads): Option<GateError> {
    if order.orderType != Limit then Some(NotLimit)
    else if cfg.autonomous && order.tif != Some(Ioc) then Some(NotIoc)
    else if order.quantity <= 0 then Some(NonPositiveQuantity)
    else if seen.market.None? then Some(ReadFailed)
    else
      var m := seen.market.value;
      if order.quantity > cfg.maxLiveBaseQuantity then Some(TooLarge)
      else if !OnGrid(order.quantity, m.quantityTick) then Some(OffGrid)
      else if m.minOrderBase.Some? && order.quantity < m.minOrderBase.value then Some(TooSmall)
      else if order.price.None? || order.price.value <= 0 then Some(NoPrice)
      else if !OnGrid(order.price.value, m.priceTick) then Some(OffGrid)
      else if m.minOrderQuote.Some? && Mul(order.price.value, order.quantity) < m.minOrderQuote.value
      then Some(TooSmall)
      else if order.side == Buy && QuoteCost(order, m.taker) > cfg.maxLiveQuoteNotional then Some(ExposureTooLarge)
      else BalanceError(order, seen)
  }

  function BalanceError(order: NewOrder, seen: Reads): Option<GateError>
    requires order.price.Some?
  {
    if seen.available.None? then Some(ReadFailed)
    else
      var available := seen.available.value;
      if order.side == Buy then
        if !seen.ticker then Some(ReadFailed)
        else if order.symbol.quote !in available
                || available[order.symbol.quote] < Mul(order.quantity, order.price.value)
        then Some(InsufficientBalance) else None
      else if order.symbol.base !in available || available[order.symbol.base] < order.quantity
      then Some(InsufficientBalance) else None
  }

  // The scope every order that passes validation is within, whatever the reads said.
  predicate InScope(cfg: Config, order: NewOrder) {
    && order.orderType == Limit
    && (cfg.autonomous ==> order.tif == Some(Ioc))
    && 0 < order.quantity <= cfg.maxLiveBaseQuantity
    && order.price.Some? && order.price.value > 0
    && (order.side == Buy ==> Mul(order.quantity, order.price.value) <= cfg.maxLiveQuoteNotional)
  }

  lemma ValidatedIsInScope(cfg: Config, order: NewOrder, seen: Reads)
    requires ValidateOrder(cfg, order, seen).None?
    ensures InScope(cfg, order)
  {
    var notional := Mul(order.quantity, order.price.value);
    MulNonNegative(order.quantity, order.price.value);
    var taker := seen.market.value.taker;
    if taker > 0 {
      MulFractionOfWhole(notional, FRACTION_SCALE);
      MulFractionMonotone(notional, 0, taker, FRACTION_SCALE);
    }
  }

  // ---- The one-in-flight guard ----

  predicate InFlight(orders: Ledger, id: string) {
    id in orders && IsLiveId(id) && Unresolved(orders[id].status)
  }

  predicate HasInFlight(orders: Ledger) {
    exists id :: id in orders && InFlight(orders, id)
  }

  ghost predicate AtMostOneInFlight(orders: Ledger) {
    forall a, b :: InFlight(orders, a) && InFlight(orders, b) ==> a == b
  }

  // ---- Records and answers ----

  function Recorded(order: NewOrder, status: OrderStatus, exchangeOrderId: Option<string>): Order {
    Order(order.clientOrderId, exchangeOrderId, order.symbol, order.side, order.orderType, status,
          order.quantity, 0, None, order.price, 0, UnknownFee, order.reason, None, None)
  }

  datatype Answer =
    | Acknowledged(exchangeOrderId: Option<string>)
    | UnknownOutcome(exchangeOrderId: Option<string>)
    | AmbiguousError      // timeout, network failure, invalid response, unknown outcome
    | DefiniteRejection
    | OtherError

  // The record an answer leaves behind when the ledger can be written.
  function Outcome(order: NewOrder, answer: Answer): Order {
    match answer
    case Acknowledged(x) => Recorded(order, Submitted, x)
    case UnknownOutcome(x) => Recorded(order, OrderStatus.Unknown, x)
    case DefiniteRejection => Recorded(order, OrderStatus.Rejected, None)
    case AmbiguousError => Recorded(order, OrderStatus.Unknown, None)
    case OtherError => Recorded(order, OrderStatus.Unknown, None)
  }
}
