/**
 The managed portfolio (src/portfolio/Portfolio.ts): cash, positions, order-linked
 reservations and the three accounting ledgers. The original is an immutable value whose
 operations return a new instance or throw, so it is a datatype here and a throw is a
 `Failure` that leaves nothing behind.
 */
module Portfolio {
  import opened Wrappers
  import opened Money
  import opened Orders

  datatype Reservation = Reservation(currency: string, amount: Money, remaining: Money, active: bool)

  datatype Position = Position(
    quantity: Money,
    costBasis: Money,
    averageEntryPrice: Money,
    entryAnchorPrice: Option<Money>)

  datatype Fill = Fill(price: Money, quantity: Money, fee: Money, feeCurrency: FeeCurrency, executionId: Option<string>)

  // What an execution id was applied as.
  datatype AppliedExecution =
    AppliedExecution(orderId: string, symbol: Symbol, side: Side, quantity: Money, price: Money, fee: Money)

  datatype SettlementMode = ExchangeValidated | OperatorAttested

  // An order-level settlement of a manual intent.
  datatype Settlement = Settlement(
    orderId: Option<string>,
    symbol: Symbol,
    side: Side,
    quantity: Money,
    price: Money,
    fee: Money,
    mode: SettlementMode)

  // An operator attestation of a live order.
  datatype Attestation =
    Attestation(exchangeOrderId: string, symbol: Symbol, side: Side, quantity: Money, price: Money, fee: Money)

  datatype Portfolio = Portfolio(
    cash: map<string, Money>,
    reserved: map<string, Money>,
    positions: map<Symbol, Position>,
    reservations: map<string, Reservation>,
    applied: map<string, AppliedExecution>,
    settlements: map<string, Settlement>,
    attestations: map<string, Attestation>,
    realizedPnl: Money)
  {
    function Cash(currency: string): Money {
      if currency in cash then cash[currency] else 0
    }

    function Reserved(currency: string): Money {
      if currency in reserved then reserved[currency] else 0
    }

    function Held(symbol: Symbol): Money {
      if symbol in positions then positions[symbol].quantity else 0
    }

    // Cash not yet committed to an order, never below zero.
    function DeployableQuote(currency: string): Money {
      var free := Cash(currency) - Reserved(currency);
      if free <= 0 then 0 else free
    }

    predicate HasActiveReservation(orderId: string) {
      orderId in reservations && reservations[orderId].active
    }
  }

  datatype Error =
    | NonPositiveAmount
    | AlreadyReserved
    | ExceedsDeployable
    | NoActiveReservation
    | ExceedsRemaining
    | MissingIdentity
    | FeeNotQuote
    | InvalidNumbers
    | UnknownCurrency
    | NoPosition
    | ExceedsPosition
    | InvalidAnchor
    | ConflictingRepeat
    | DuplicateExchangeOrder

  const EMPTY := Portfolio(map[], map[], map[], map[], map[], map[], map[], 0)

  // ---- Reservations ----

  function ReserveOrder(p: Portfolio, orderId: string, currency: string, amount: Money): Result<Portfolio, Error> {
    if amount <= 0 then Failure(NonPositiveAmount)
    else if orderId in p.reservations then Failure(AlreadyReserved)
    else if amount > p.DeployableQuote(currency) then Failure(ExceedsDeployable)
    else Success(p.(
      reserved := p.reserved[currency := p.Reserved(currency) + amount],
      reservations := p.reservations[orderId := Reservation(currency, amount, amount, true)]))
  }

  function ConsumeOrderReservation(p: Portfolio, orderId: string, amount: Money): Result<Portfolio, Error> {
    if !p.HasActiveReservation(orderId) then Failure(NoActiveReservation)
    else if amount <= 0 then Failure(NonPositiveAmount)
    else
      var r := p.reservations[orderId];
      if amount > r.remaining then Failure(ExceedsRemaining)
      else Success(p.(reservations := p.reservations[orderId := r.(remaining := r.remaining - amount)]))
  }

  // Releasing more than is reserved is a silent no-op in the original.
  function ReleaseQuote(p: Portfolio, currency: string, amount: Money): Result<Portfolio, Error> {
    if amount == 0 then Success(p)
    else if amount < 0 then Failure(NonPositiveAmount)
    else if amount > p.Reserved(currency) then Success(p)
    else Success(p.(reserved := p.reserved[currency := p.Reserved(currency) - amount]))
  }

  // Exactly once: an absent or already released reservation releases nothing.
  function ReleaseOrderReservation(p: Portfolio, orderId: string): Portfolio {
    if !p.HasActiveReservation(orderId) then p
    else
      var r := p.reservations[orderId];
      p.(reserved := p.reserved[r.currency := p.Reserved(r.currency) - r.remaining],
         reservations := p.reservations[orderId := r.(remaining := 0, active := false)])
  }

  // ---- Fills ----

  function ApplyFill(
    p: Portfolio,
    symbol: Symbol,
    side: Side,
    quantity: Money,
    price: Money,
    fee: Money,
    entryAnchor: Option<Money> := None): Result<Portfolio, Error>
  {
    if quantity <= 0 then Failure(InvalidNumbers)
    else if side == Buy then ApplyBuy(p, symbol, quantity, Mul(quantity, price) + fee, entryAnchor)
    else ApplySell(p, symbol, quantity, price, fee)
  }

  function ApplyBuy(p: Portfolio, symbol: Symbol, quantity: Money, cost: Money, entryAnchor: Option<Money>)
    : Result<Portfolio, Error>
  {
    if symbol.quote !in p.cash then Failure(UnknownCurrency)
    else if symbol in p.positions then
      var held := p.positions[symbol];
      if held.quantity + quantity == 0 then Failure(InvalidNumbers)
      else
        var basis := held.costBasis + cost;
        var position := held.(
          quantity := held.quantity + quantity,
          costBasis := basis,
          averageEntryPrice := Div(basis, held.quantity + quantity));
        Success(Debited(p, symbol, position, cost))
    else if entryAnchor.Some? && entryAnchor.value <= 0 then Failure(InvalidAnchor)
    else if quantity == 0 then Failure(InvalidNumbers)
    else Success(Debited(p, symbol, Position(quantity, cost, Div(cost, quantity), entryAnchor), cost))
  }

  function Debited(p: Portfolio, symbol: Symbol, position: Position, cost: Money): Portfolio
    requires symbol.quote in p.cash
  {
    p.(positions := p.positions[symbol := position],
       cash := p.cash[symbol.quote := p.cash[symbol.quote] - cost])
  }

  function ApplySell(p: Portfolio, symbol: Symbol, quantity: Money, price: Money, fee: Money)
    : Result<Portfolio, Error>
  {
    if p.Held(symbol) == 0 then Failure(NoPosition)
    else if quantity > p.Held(symbol) then Failure(ExceedsPosition)
    else if symbol.quote !in p.cash then Failure(UnknownCurrency)
    else
      var held := p.positions[symbol];
      var remaining := held.quantity - quantity;
      var position := held.(
        quantity := remaining,
        costBasis := if remaining == 0 then 0 else held.costBasis - Mul(held.averageEntryPrice, quantity));
      Success(p.(
        positions := if remaining == 0 then p.positions - {symbol} else p.positions[symbol := position],
        cash := p.cash[symbol.quote := p.cash[symbol.quote] + (Mul(quantity, price) - fee)],
        realizedPnl := p.realizedPnl + (Mul(quantity, price - held.averageEntryPrice) - fee)))
  }

  // ---- Accounting ledgers ----

  // One exchange execution, applied at most once under its execution id.
  function ApplyLiveFill(p: Portfolio, orderId: string, symbol: Symbol, side: Side, fill: Fill)
    : Result<Portfolio, Error>
  {
    if fill.executionId.None? || fill.executionId.value == "" then Failure(MissingIdentity)
    else if fill.fee != 0 && fill.feeCurrency != QuoteFee then Failure(FeeNotQuote)
    else
      var record := AppliedExecution(orderId, symbol, side, fill.quantity, fill.price, fill.fee);
      if fill.executionId.value in p.applied then
        if p.applied[fill.executionId.value] == record then Success(p) else Failure(ConflictingRepeat)
      else
        var filled :- ApplyFill(p, symbol, side, fill.quantity, fill.price, fill.fee);
        var cost := Mul(fill.quantity, fill.price) + fill.fee;
        var paired :- if side == Buy && p.HasActiveReservation(orderId)
                      then Consume(filled, orderId, cost) else Success(filled);
        Success(paired.(applied := paired.applied[fill.executionId.value := record]))
  }

  // Lowers the order's remaining amount and the aggregate pool together.
  function Consume(p: Portfolio, orderId: string, cost: Money): Result<Portfolio, Error> {
    var consumed :- ConsumeOrderReservation(p, orderId, cost);
    ReleaseQuote(consumed, p.reservations[orderId].currency, cost)
  }

  // The aggregate of an operator-executed order, applied at most once under its intent id.
  function SettleManualOrder(p: Portfolio, intentId: string, s: Settlement): Result<Portfolio, Error> {
    if intentId == "" then Failure(MissingIdentity)
    else if s.quantity <= 0 || s.price < 0 || s.fee < 0 then Failure(InvalidNumbers)
    else if intentId in p.settlements then
      if SameSettlement(p.settlements[intentId], s) then Success(p) else Failure(ConflictingRepeat)
    else if s.orderId.Some?
            && exists other :: other in p.settlements && SameExternalOrderId(p.settlements[other].orderId, s.orderId)
    then Failure(DuplicateExchangeOrder)
    else
      var next :- SettleReserved(p, intentId, s.symbol, s.side, s.quantity, s.price, s.fee);
      Success(next.(settlements := next.settlements[intentId := s]))
  }

  predicate SameSettlement(settled: Settlement, s: Settlement) {
    && settled.(orderId := s.orderId) == s
    && SameExternalOrderId(settled.orderId, s.orderId)
  }

  // The aggregate of an attested live order, applied at most once under its client order id.
  function SettleLiveOrderAttested(
      p: Portfolio, clientOrderId: string, orderQuantity: Money, a: Attestation, feeCurrency: FeeCurrency)
    : Result<Portfolio, Error>
  {
    if clientOrderId == "" || a.exchangeOrderId == "" then Failure(MissingIdentity)
    else if a.quantity <= 0 || a.quantity > orderQuantity || a.price <= 0 || a.fee < 0 then Failure(InvalidNumbers)
    else if a.fee != 0 && feeCurrency != QuoteFee then Failure(FeeNotQuote)
    else if clientOrderId in p.attestations then
      if p.attestations[clientOrderId] == a then Success(p) else Failure(ConflictingRepeat)
    else if exists e :: e in p.applied && p.applied[e].orderId == clientOrderId then Failure(DuplicateExchangeOrder)
    else if exists i :: i in p.settlements && SameExternalOrderId(p.settlements[i].orderId, Some(a.exchangeOrderId))
    then Failure(DuplicateExchangeOrder)
    else if exists o ::
              && o in p.attestations
              && SameExternalOrderId(Some(p.attestations[o].exchangeOrderId), Some(a.exchangeOrderId))
    then Failure(DuplicateExchangeOrder)
    else
      var next :- SettleReserved(p, clientOrderId, a.symbol, a.side, a.quantity, a.price, a.fee);
      Success(next.(attestations := next.attestations[clientOrderId := a]))
  }

  // The part both settlements share: a BUY must fit its active reservation, which is then
  // consumed and released exactly once.
  function SettleReserved(
      p: Portfolio, id: string, symbol: Symbol, side: Side, quantity: Money, price: Money, fee: Money)
    : Result<Portfolio, Error>
  {
    var cost := Mul(quantity, price) + fee;
    if side == Buy && !p.HasActiveReservation(id) then Failure(NoActiveReservation)
    else if side == Buy && cost > p.reservations[id].remaining then Failure(ExceedsRemaining)
    else
      var filled :- ApplyFill(p, symbol, side, quantity, price, fee);
      if side == Sell then Success(filled)
      else
        var consumed :- Consume(filled, id, cost);
        Success(ReleaseOrderReservation(consumed, id))
  }
}
