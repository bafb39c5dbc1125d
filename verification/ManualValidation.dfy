/**
 Manual-execution intents and the validation of operator evidence (src/manual/types.ts,
 src/manual/validation.ts).
 */
module ManualValidation {
  import opened Wrappers
  import opened Money
  import opened Orders
  import Digits
  import P = Portfolio

  datatype IntentStatus =
    | Proposed
    | Confirmed
    | EvidenceRecorded
    | PendingFill
    | AccountedExchange
    | AccountedOperator
    | ReconciliationRequired
    | CanceledIntent
    | VoidIntent
    | Ambiguous

  datatype Evidence = Evidence(
    orderId: Option<string>,
    status: Option<OrderStatus>,
    filledQuantity: Option<Money>,
    averagePrice: Option<Money>,
    fee: Option<Money>)

  datatype Intent = Intent(
    id: string,
    status: IntentStatus,
    symbol: Symbol,
    side: Side,
    orderType: OrderType,
    quantity: Money,
    limitPrice: Option<Money>,
    evidence: Option<Evidence>,
    createdAtMs: int,
    reservationCurrency: Option<string>,
    reservationAmount: Option<Money>)

  predicate IsAccounted(s: IntentStatus) {
    s == AccountedExchange || s == AccountedOperator
  }

  predicate IsTerminalIntent(s: IntentStatus) {
    IsAccounted(s) || s == CanceledIntent || s == VoidIntent
  }

  function AccountedBy(mode: P.SettlementMode): IntentStatus {
    if mode.OperatorAttested? then AccountedOperator else AccountedExchange
  }

  // ---- Exchange order states ----

  predicate IsFinal(s: Option<OrderStatus>) {
    s.Some? && s.value in {Filled, OrderStatus.Canceled, OrderStatus.Rejected, Expired}
  }

  predicate IsOpen(s: OrderStatus) {
    s in {Created, Submitted, Open, PartiallyFilled}
  }

  // A final state whose reported fill is not positive.
  predicate IsFinalNoFill(s: Option<OrderStatus>, filled: Option<Money>) {
    IsFinal(s) && filled.Some? && filled.value <= 0
  }

  predicate ReportsFill(e: Option<Evidence>) {
    e.Some? && e.value.filledQuantity.Some? && e.value.filledQuantity.value > 0
  }

  // ---- Structural validation ----

  datatype Disposition = Settlable | NoFill | AwaitsFinal | Invalid

  function ValidateStructural(intent: Intent, e: Evidence): Disposition {
    if e.status.None? || e.status == Some(OrderStatus.Unknown) then AwaitsFinal
    else if e.orderId.Some? && e.orderId.value != "" && !Digits.IsNumeral(e.orderId.value) then Invalid
    else if e.fee.Some? && e.fee.value < 0 then Invalid
    else if IsOpen(e.status.value) then AwaitsFinal
    else if e.filledQuantity.None? then AwaitsFinal
    else if e.filledQuantity.value < 0 || e.filledQuantity.value > intent.quantity then Invalid
    else if IsFinalNoFill(e.status, e.filledQuantity) then NoFill
    else if e.averagePrice.None? || e.averagePrice.value <= 0 then Invalid
    else Settlable
  }

  // ---- Progress of evidence ----

  // A new record conflicts with the previous one when it takes back a final state or its kind.
  predicate ProgressConflict(prev: Evidence, next: Evidence) {
    && IsFinal(prev.status)
    && if IsFinalNoFill(prev.status, prev.filledQuantity) then !IsFinalNoFill(next.status, next.filledQuantity)
       else !IsFinal(next.status) || IsFinalNoFill(next.status, next.filledQuantity)
  }

  // What accepted evidence has settled so far: nothing, a final no-fill, or a final state that
  // reports a fill or no quantity.
  datatype EvidenceClass = StillOpen | Final(noFill: bool)

  function ClassOf(e: Option<Evidence>): EvidenceClass {
    if e.None? || !IsFinal(e.value.status) then StillOpen
    else Final(IsFinalNoFill(e.value.status, e.value.filledQuantity))
  }

  lemma AcceptedEvidenceKeepsItsClassIff(prev: Evidence, next: Evidence)
    ensures !ProgressConflict(prev, next)
        <==> ClassOf(Some(prev)) == StillOpen || ClassOf(Some(next)) == ClassOf(Some(prev))
  {
  }

  // ---- Validation against the exchange ----

  // Consistency of the exchange order with the intent: nothing contradicts, something confirms.
  predicate Contradicts(intent: Intent, a: Order) {
    || a.symbol != intent.symbol
    || a.side != intent.side
    || (a.quantity > 0 && (a.quantity != intent.quantity || a.filledQuantity > a.quantity))
    || (a.createdAtMs.Some? && intent.createdAtMs != 0 && a.createdAtMs.value < intent.createdAtMs)
    || (intent.orderType == Limit && intent.limitPrice.Some?
        && (a.orderType != Limit || (a.price.Some? && a.price.value > 0 && a.price != intent.limitPrice)))
    || a.filledQuantity > intent.quantity
  }

  predicate HasBasis(intent: Intent, a: Order) {
    a.quantity > 0 || a.createdAtMs.Some? || (intent.orderType == Limit && intent.limitPrice.Some?)
  }

  datatype Validation = Unreadable | Conflicting | NotFinal | Authoritative(order: Order)

  // `read` is the order the exchange returned for the evidence's id, None when the read failed.
  function ValidateAgainstExchange(intent: Intent, e: Evidence, read: Option<Order>): Validation {
    if e.orderId.None? || e.orderId.value == "" || read.None? then Unreadable
    else
      var a := read.value;
      if !IsFinal(Some(a.status)) then NotFinal
      else if e.filledQuantity.Some? && e.filledQuantity.value != a.filledQuantity then Conflicting
      else if e.averagePrice.Some? && a.averagePrice.Some? && e.averagePrice != a.averagePrice then Conflicting
      else if Contradicts(intent, a) || !HasBasis(intent, a) then Conflicting
      else Authoritative(a)
  }
}
