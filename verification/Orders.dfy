/** Order and execution domain types (src/order.ts, src/types.ts), as far as the models need them. */
module Orders {
  import opened Wrappers
  import opened Money
  import Digits

  // "BASE/QUOTE" with the parts already separated.
  datatype Symbol = Symbol(base: string, quote: string)

  datatype Side = Buy | Sell

  datatype OrderType = Market | Limit

  datatype Tif = Gtc | Ioc | Fok

  datatype FeeCurrency = BaseFee | QuoteFee | UnknownFee

  datatype OrderStatus =
    | Created
    | Submitted
    | Open
    | PartiallyFilled
    | Filled
    | Canceled
    | Rejected
    | Expired
    | Unknown
    | Abandoned

  datatype NewOrder = NewOrder(
    clientOrderId: string,
    symbol: Symbol,
    side: Side,
    orderType: OrderType,
    quantity: Money,
    price: Option<Money>,
    tif: Option<Tif>,
    reason: string)

  datatype ResolutionKind = Attach | Abandon

  datatype Order = Order(
    clientOrderId: string,
    exchangeOrderId: Option<string>,
    symbol: Symbol,
    side: Side,
    orderType: OrderType,
    status: OrderStatus,
    quantity: Money,
    filledQuantity: Money,
    averagePrice: Option<Money>,
    price: Option<Money>,
    fee: Money,
    feeCurrency: FeeCurrency,
    reason: string,
    createdAtMs: Option<int>,
    resolution: Option<ResolutionKind>)

  type Ledger = map<string, Order>

  const LIVE_PREFIX := "live-"

  predicate IsLiveId(id: string) {
    LIVE_PREFIX <= id
  }

  // The statuses that keep a live order in flight.
  predicate Unresolved(status: OrderStatus) {
    status in {Created, Submitted, Open, PartiallyFilled, OrderStatus.Unknown}
  }

  // The statuses the monitor observes: in flight, but past the durable CREATED record.
  predicate Observable(status: OrderStatus) {
    Unresolved(status) && status != Created
  }

  // Whether two external order ids denote the same exchange order (Portfolio.sameExternalOrderId).
  predicate SameExternalOrderId(a: Option<string>, b: Option<string>) {
    a == b
    || (a.Some? && b.Some? && Digits.IsNumeral(a.value) && Digits.IsNumeral(b.value)
        && Digits.Value(a.value) == Digits.Value(b.value))
  }
}
