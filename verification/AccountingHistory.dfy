/**
 Exactly-once accounting over whole histories. Whatever sequence of reservations, releases,
 live fills, manual settlements and attestations is thrown at a portfolio, with any repeats and
 conflicts, the cash and the positions are the initial ones plus each booked entry once.
 */
module AccountingHistory {
  import opened Wrappers
  import opened Money
  import opened Orders
  import opened Portfolio
  import opened PortfolioLaws
  import opened Sums

  // An economic entry of any of the three ledgers.
  datatype Entry = Entry(symbol: Symbol, side: Side, quantity: Money, price: Money, fee: Money)

  function CashFlow(e: Entry, currency: string): Money {
    if e.symbol.quote == currency then -Outflow(e.side, e.quantity, e.price, e.fee) else 0
  }

  function BaseFlow(e: Entry, symbol: Symbol): Money {
    if e.symbol != symbol then 0 else if e.side == Buy then e.quantity else -e.quantity
  }

  function OfExecution(a: AppliedExecution): Entry {
    Entry(a.symbol, a.side, a.quantity, a.price, a.fee)
  }

  function OfSettlement(s: Settlement): Entry {
    Entry(s.symbol, s.side, s.quantity, s.price, s.fee)
  }

  function OfAttestation(a: Attestation): Entry {
    Entry(a.symbol, a.side, a.quantity, a.price, a.fee)
  }

  ghost function Entries(p: Portfolio): (map<string, Entry>, map<string, Entry>, map<string, Entry>) {
    (map k | k in p.applied :: OfExecution(p.applied[k]),
     map k | k in p.settlements :: OfSettlement(p.settlements[k]),
     map k | k in p.attestations :: OfAttestation(p.attestations[k]))
  }

  ghost function CashFlows(m: map<string, Entry>, currency: string): map<string, Money> {
    map k | k in m :: CashFlow(m[k], currency)
  }

  ghost function BaseFlows(m: map<string, Entry>, symbol: Symbol): map<string, Money> {
    map k | k in m :: BaseFlow(m[k], symbol)
  }

  ghost function CashTotal(m: map<string, Entry>, currency: string): Money {
    Total(CashFlows(m, currency))
  }

  ghost function BaseTotal(m: map<string, Entry>, symbol: Symbol): Money {
    Total(BaseFlows(m, symbol))
  }

  ghost function BookedCash(p: Portfolio, currency: string): Money {
    CashTotal(Entries(p).0, currency) + CashTotal(Entries(p).1, currency) + CashTotal(Entries(p).2, currency)
  }

  ghost function BookedBase(p: Portfolio, symbol: Symbol): Money {
    BaseTotal(Entries(p).0, symbol) + BaseTotal(Entries(p).1, symbol) + BaseTotal(Entries(p).2, symbol)
  }

  lemma CashTotalAfterBooking(m: map<string, Entry>, k: string, e: Entry, currency: string)
    requires k !in m
    ensures CashTotal(m[k := e], currency) == CashTotal(m, currency) + CashFlow(e, currency)
  {
    var flow := CashFlow(e, currency);
    var flows := CashFlows(m, currency);
    TotalUpdate(flows, k, flow);
    assert CashFlows(m[k := e], currency) == flows[k := flow];
  }

  lemma BaseTotalAfterBooking(m: map<string, Entry>, k: string, e: Entry, symbol: Symbol)
    requires k !in m
    ensures BaseTotal(m[k := e], symbol) == BaseTotal(m, symbol) + BaseFlow(e, symbol)
  {
    var flow := BaseFlow(e, symbol);
    var flows := BaseFlows(m, symbol);
    TotalUpdate(flows, k, flow);
    assert BaseFlows(m[k := e], symbol) == flows[k := flow];
  }

  lemma TotalsAfterBooking(m: map<string, Entry>, k: string, e: Entry, currency: string, symbol: Symbol)
    requires k !in m
    ensures CashTotal(m[k := e], currency) == CashTotal(m, currency) + CashFlow(e, currency)
    ensures BaseTotal(m[k := e], symbol) == BaseTotal(m, symbol) + BaseFlow(e, symbol)
  {
    CashTotalAfterBooking(m, k, e, currency);
    BaseTotalAfterBooking(m, k, e, symbol);
  }

  // ---- Histories ----

  datatype Op =
    | Reserve(id: string, currency: string, amount: Money)
    | Release(id: string)
    | LiveFill(id: string, symbol: Symbol, side: Side, fill: Fill)
    | SettleManual(id: string, settlement: Settlement)
    | Attest(id: string, orderQuantity: Money, attestation: Attestation, feeCurrency: FeeCurrency)

  function Attempt(p: Portfolio, op: Op): Result<Portfolio, Error> {
    match op
    case Reserve(id, currency, amount) => ReserveOrder(p, id, currency, amount)
    case Release(id) => Success(ReleaseOrderReservation(p, id))
    case LiveFill(id, symbol, side, fill) => ApplyLiveFill(p, id, symbol, side, fill)
    case SettleManual(id, s) => SettleManualOrder(p, id, s)
    case Attest(id, orderQuantity, a, feeCurrency) => SettleLiveOrderAttested(p, id, orderQuantity, a, feeCurrency)
  }

  // A failed operation leaves the portfolio as it was.
  function Apply(p: Portfolio, op: Op): Portfolio {
    var r := Attempt(p, op);
    if r.Success? then r.value else p
  }

  function History(p: Portfolio, ops: seq<Op>): Portfolio
    decreases |ops|
  {
    if ops == [] then p else Apply(History(p, ops[..|ops| - 1]), ops[|ops| - 1])
  }

  lemma BuyMoves(p: Portfolio, s: Symbol, quantity: Money, cost: Money, currency: string, symbol: Symbol)
    requires ApplyBuy(p, s, quantity, cost, None).Success?
    ensures var q := ApplyBuy(p, s, quantity, cost, None).value;
            && q.Cash(currency) == p.Cash(currency) - (if s.quote == currency then cost else 0)
            && q.Held(symbol) == p.Held(symbol) + (if s == symbol then quantity else 0)
  {
  }

  lemma SellMoves(p: Portfolio, s: Symbol, quantity: Money, price: Money, fee: Money, currency: string, symbol: Symbol)
    requires ApplySell(p, s, quantity, price, fee).Success?
    ensures var q := ApplySell(p, s, quantity, price, fee).value;
            && q.Cash(currency) == p.Cash(currency) + (if s.quote == currency then Mul(quantity, price) - fee else 0)
            && q.Held(symbol) == p.Held(symbol) - (if s == symbol then quantity else 0)
  {
  }

  // The cash and the position move by the flow of the booked entry.
  lemma FillMovesByItsEntry(p: Portfolio, e: Entry, currency: string, symbol: Symbol)
    requires ApplyFill(p, e.symbol, e.side, e.quantity, e.price, e.fee).Success?
    ensures Moved(p, ApplyFill(p, e.symbol, e.side, e.quantity, e.price, e.fee).value,
                  CashFlow(e, currency), BaseFlow(e, symbol), currency, symbol)
  {
    if e.side == Buy {
      BuyMoves(p, e.symbol, e.quantity, Mul(e.quantity, e.price) + e.fee, currency, symbol);
    } else {
      SellMoves(p, e.symbol, e.quantity, e.price, e.fee, currency, symbol);
    }
  }

  ghost predicate Moved(p: Portfolio, q: Portfolio, cash: Money, base: Money, currency: string, symbol: Symbol) {
    && q.Cash(currency) == p.Cash(currency) + cash
    && q.Held(symbol) == p.Held(symbol) + base
  }

  // An operation moved the balances by exactly what it added to the books.
  ghost predicate Explained(p: Portfolio, q: Portfolio, currency: string, symbol: Symbol) {
    && q.Cash(currency) - BookedCash(q, currency) == p.Cash(currency) - BookedCash(p, currency)
    && q.Held(symbol) - BookedBase(q, symbol) == p.Held(symbol) - BookedBase(p, symbol)
  }

  // One of the three ledgers gained one entry.
  ghost predicate Booked(p: Portfolio, q: Portfolio, k: string, e: Entry) {
    || (k !in p.applied && Entries(q) == (Entries(p).0[k := e], Entries(p).1, Entries(p).2))
    || (k !in p.settlements && Entries(q) == (Entries(p).0, Entries(p).1[k := e], Entries(p).2))
    || (k !in p.attestations && Entries(q) == (Entries(p).0, Entries(p).1, Entries(p).2[k := e]))
  }

  // The totals of the books move by the flows of the booked entry.
  lemma BookedTotals(p: Portfolio, q: Portfolio, k: string, e: Entry, currency: string, symbol: Symbol)
    requires Booked(p, q, k, e)
    ensures BookedCash(q, currency) == BookedCash(p, currency) + CashFlow(e, currency)
    ensures BookedBase(q, symbol) == BookedBase(p, symbol) + BaseFlow(e, symbol)
  {
    var (applied, settlements, attestations) := Entries(p);
    hide Total, CashFlow, BaseFlow, CashTotal, BaseTotal;
    if k !in p.applied && Entries(q) == (applied[k := e], settlements, attestations) {
      TotalsAfterBooking(applied, k, e, currency, symbol);
    } else if k !in p.settlements && Entries(q) == (applied, settlements[k := e], attestations) {
      TotalsAfterBooking(settlements, k, e, currency, symbol);
    } else {
      TotalsAfterBooking(attestations, k, e, currency, symbol);
    }
  }

  lemma BookedIsExplained(p: Portfolio, q: Portfolio, k: string, e: Entry, currency: string, symbol: Symbol)
    requires Booked(p, q, k, e)
    requires Moved(p, q, CashFlow(e, currency), BaseFlow(e, symbol), currency, symbol)
    ensures Explained(p, q, currency, symbol)
  {
    BookedTotals(p, q, k, e, currency, symbol);
    hide Booked, BookedCash, BookedBase, CashFlow, BaseFlow;
  }

  lemma LiveFillFrame(p: Portfolio, id: string, s: Symbol, side: Side, fill: Fill)
    requires ApplyLiveFill(p, id, s, side, fill).Success? && fill.executionId.value !in p.applied
    ensures var q := ApplyLiveFill(p, id, s, side, fill).value;
            && ApplyFill(p, s, side, fill.quantity, fill.price, fill.fee).Success?
            && var filled := ApplyFill(p, s, side, fill.quantity, fill.price, fill.fee).value;
            && q.cash == filled.cash && q.positions == filled.positions
            && q.settlements == p.settlements && q.attestations == p.attestations
            && var record := AppliedExecution(id, s, side, fill.quantity, fill.price, fill.fee);
               q.applied == p.applied[fill.executionId.value := record]
  {
    LiveFillParts(p, id, s, side, fill);
    ApplyFillKeepsReservations(p, s, side, fill.quantity, fill.price, fill.fee);
  }

  lemma LiveFillExplained(p: Portfolio, id: string, s: Symbol, side: Side, fill: Fill, currency: string, symbol: Symbol)
    requires ApplyLiveFill(p, id, s, side, fill).Success?
    ensures Explained(p, ApplyLiveFill(p, id, s, side, fill).value, currency, symbol)
  {
    if fill.executionId.value !in p.applied {
      var e := Entry(s, side, fill.quantity, fill.price, fill.fee);
      var q := ApplyLiveFill(p, id, s, side, fill).value;
      LiveFillFrame(p, id, s, side, fill);
      FillMovesByItsEntry(p, e, currency, symbol);
      assert Entries(q).0 == Entries(p).0[fill.executionId.value := e];
      BookedIsExplained(p, q, fill.executionId.value, e, currency, symbol);
    }
  }

  lemma SettleReservedMoves(p: Portfolio, id: string, e: Entry, currency: string, symbol: Symbol)
    requires SettleReserved(p, id, e.symbol, e.side, e.quantity, e.price, e.fee).Success?
    ensures Moved(p, SettleReserved(p, id, e.symbol, e.side, e.quantity, e.price, e.fee).value,
                  CashFlow(e, currency), BaseFlow(e, symbol), currency, symbol)
  {
    FillMovesByItsEntry(p, e, currency, symbol);
    SettlementKeepsFill(p, id, e.symbol, e.side, e.quantity, e.price, e.fee);
    hide Mul, ApplyFill, SettleReserved, CashFlow, BaseFlow;
  }

  // What follows the fill of a settlement moves no money.
  lemma SettlementKeepsFill(p: Portfolio, id: string, s: Symbol, side: Side, quantity: Money, price: Money, fee: Money)
    requires SettleReserved(p, id, s, side, quantity, price, fee).Success?
    ensures ApplyFill(p, s, side, quantity, price, fee).Success?
    ensures var q := SettleReserved(p, id, s, side, quantity, price, fee).value;
            var filled := ApplyFill(p, s, side, quantity, price, fee).value;
            q.cash == filled.cash && q.positions == filled.positions
  {
    hide Mul, ApplyFill;
  }

  lemma SettledParts(p: Portfolio, id: string, s: Settlement)
    requires SettleManualOrder(p, id, s).Success? && id !in p.settlements
    ensures SettleReserved(p, id, s.symbol, s.side, s.quantity, s.price, s.fee).Success?
    ensures var next := SettleReserved(p, id, s.symbol, s.side, s.quantity, s.price, s.fee).value;
            SettleManualOrder(p, id, s).value == next.(settlements := next.settlements[id := s])
  {
    hide SettleReserved, SameExternalOrderId;
  }

  lemma SettlementIsBooked(p: Portfolio, q: Portfolio, id: string, s: Settlement)
    requires id !in p.settlements && q.settlements == p.settlements[id := s]
    requires q.applied == p.applied && q.attestations == p.attestations
    ensures Booked(p, q, id, OfSettlement(s))
  {
    assert Entries(q).1 == Entries(p).1[id := OfSettlement(s)];
  }

  lemma AttestationIsBooked(p: Portfolio, q: Portfolio, id: string, a: Attestation)
    requires id !in p.attestations && q.attestations == p.attestations[id := a]
    requires q.applied == p.applied && q.settlements == p.settlements
    ensures Booked(p, q, id, OfAttestation(a))
  {
    assert Entries(q).2 == Entries(p).2[id := OfAttestation(a)];
  }

  lemma SettleManualExplained(p: Portfolio, id: string, s: Settlement, currency: string, symbol: Symbol)
    requires SettleManualOrder(p, id, s).Success?
    ensures Explained(p, SettleManualOrder(p, id, s).value, currency, symbol)
  {
    if id !in p.settlements {
      var q := SettleManualOrder(p, id, s).value;
      SettledParts(p, id, s);
      hide Mul, SettleReserved, ApplyFill, SettleManualOrder, Booked, Explained, CashFlow, BaseFlow;
      SettleReservedMoves(p, id, OfSettlement(s), currency, symbol);
      SettleReservedFrame(p, id, s.symbol, s.side, s.quantity, s.price, s.fee);
      SettlementIsBooked(p, q, id, s);
      BookedIsExplained(p, q, id, OfSettlement(s), currency, symbol);
    }
  }

  lemma AttestedParts(p: Portfolio, id: string, n: Money, a: Attestation, f: FeeCurrency)
    requires SettleLiveOrderAttested(p, id, n, a, f).Success? && id !in p.attestations
    ensures SettleReserved(p, id, a.symbol, a.side, a.quantity, a.price, a.fee).Success?
    ensures var next := SettleReserved(p, id, a.symbol, a.side, a.quantity, a.price, a.fee).value;
            SettleLiveOrderAttested(p, id, n, a, f).value == next.(attestations := next.attestations[id := a])
  {
    hide SettleReserved, SameExternalOrderId;
  }

  lemma AttestExplained(
      p: Portfolio, id: string, n: Money, a: Attestation, f: FeeCurrency, currency: string, symbol: Symbol)
    requires SettleLiveOrderAttested(p, id, n, a, f).Success?
    ensures Explained(p, SettleLiveOrderAttested(p, id, n, a, f).value, currency, symbol)
  {
    if id !in p.attestations {
      var q := SettleLiveOrderAttested(p, id, n, a, f).value;
      AttestedParts(p, id, n, a, f);
      hide Mul, SettleReserved, ApplyFill, SettleLiveOrderAttested, Booked, Explained, CashFlow, BaseFlow;
      SettleReservedMoves(p, id, OfAttestation(a), currency, symbol);
      SettleReservedFrame(p, id, a.symbol, a.side, a.quantity, a.price, a.fee);
      AttestationIsBooked(p, q, id, a);
      BookedIsExplained(p, q, id, OfAttestation(a), currency, symbol);
    }
  }

  lemma StepExplained(p: Portfolio, op: Op, currency: string, symbol: Symbol)
    ensures Explained(p, Apply(p, op), currency, symbol)
  {
    if Attempt(p, op).Success? {
      match op
      case LiveFill(id, s, side, fill) => LiveFillExplained(p, id, s, side, fill, currency, symbol);
      case SettleManual(id, s) => SettleManualExplained(p, id, s, currency, symbol);
      case Attest(id, n, a, f) => AttestExplained(p, id, n, a, f, currency, symbol);
      case Reserve(_, _, _) =>
      case Release(_) =>
    }
  }

  // The books explain the balances: nothing is booked twice and nothing moves unbooked.
  lemma {:induction false} BooksExplainBalances(p: Portfolio, ops: seq<Op>, currency: string, symbol: Symbol)
    ensures Explained(p, History(p, ops), currency, symbol)
    decreases |ops|
  {
    if ops != [] {
      BooksExplainBalances(p, ops[..|ops| - 1], currency, symbol);
      StepExplained(History(p, ops[..|ops| - 1]), ops[|ops| - 1], currency, symbol);
    }
  }

  // The reserved pool is the sum of the active reservations at every point of every history,
  // and one exchange order never carries two manual settlements.
  lemma {:induction false} HistoryKeepsPool(p: Portfolio, ops: seq<Op>)
    requires Pooled(p) && OneIntentPerExchangeOrder(p)
    ensures Pooled(History(p, ops)) && OneIntentPerExchangeOrder(History(p, ops))
    decreases |ops|
  {
    if ops != [] {
      HistoryKeepsPool(p, ops[..|ops| - 1]);
      StepKeepsPool(History(p, ops[..|ops| - 1]), ops[|ops| - 1]);
    }
  }

  lemma StepKeepsPool(p: Portfolio, op: Op)
    requires Pooled(p) && OneIntentPerExchangeOrder(p)
    ensures Pooled(Apply(p, op)) && OneIntentPerExchangeOrder(Apply(p, op))
  {
    StepFunding(p, op, "");
    hide Pooled;
    if Attempt(p, op).Success? {
      match op
      case Reserve(_, _, _) =>
      case Release(_) =>
      case LiveFill(id, s, side, fill) =>
        if fill.executionId.value !in p.applied { LiveFillFrame(p, id, s, side, fill); }
      case SettleManual(id, s) => SettleManualOrderKeepsOrdersApart(p, id, s);
      case Attest(id, n, a, f) =>
        if id !in p.attestations {
          SettleReservedFrame(p, id, a.symbol, a.side, a.quantity, a.price, a.fee);
        }
    }
  }

  // ---- Funded commitments over whole histories ----

  // The charge of the booking an operation adds, if it adds one.
  datatype Charge = Charge(symbol: Symbol, side: Side, outflow: Money)

  function NewCharge(p: Portfolio, op: Op): Option<Charge> {
    if Attempt(p, op).Failure? then None
    else
      match op
      case Reserve(_, _, _) => None
      case Release(_) => None
      case LiveFill(_, s, side, fill) =>
        if fill.executionId.Some? && fill.executionId.value in p.applied then None
        else Some(Charge(s, side, Outflow(side, fill.quantity, fill.price, fill.fee)))
      case SettleManual(id, s) =>
        if id in p.settlements then None
        else Some(Charge(s.symbol, s.side, Outflow(s.side, s.quantity, s.price, s.fee)))
      case Attest(id, _, a, _) =>
        if id in p.attestations then None
        else Some(Charge(a.symbol, a.side, Outflow(a.side, a.quantity, a.price, a.fee)))
  }

  // The operation charges nothing in the currency, or what its own reservation pays or the
  // uncommitted cash covers.
  predicate Affords(p: Portfolio, op: Op, currency: string) {
    var c := NewCharge(p, op);
    c.Some? && c.value.symbol.quote == currency ==> Affordable(p, op.id, c.value.symbol, c.value.side, c.value.outflow)
  }

  lemma StepFunding(p: Portfolio, op: Op, currency: string)
    requires Pooled(p)
    ensures Pooled(Apply(p, op))
    ensures Backed(p, currency) ==> (Backed(Apply(p, op), currency) <==> Affords(p, op, currency))
  {
    if Attempt(p, op).Success? {
      hide Pooled, Affordable, Outflow, ApplyLiveFill, SettleManualOrder, SettleLiveOrderAttested, ReserveOrder;
      match op
      case Reserve(id, c, amount) => ReserveOrderKeeps(p, id, c, amount, currency);
      case Release(id) => ReleaseOrderReservationKeeps(p, id, currency);
      case LiveFill(id, s, side, fill) => LiveFillFunding(p, id, s, side, fill, currency);
      case SettleManual(_, _) => SettlementFunding(p, op, currency);
      case Attest(_, _, _, _) => SettlementFunding(p, op, currency);
    }
  }

  lemma SettlementFunding(p: Portfolio, op: Op, currency: string)
    requires Pooled(p) && (op.SettleManual? || op.Attest?) && Attempt(p, op).Success?
    ensures Pooled(Apply(p, op))
    ensures Backed(p, currency) ==> (Backed(Apply(p, op), currency) <==> Affords(p, op, currency))
  {
    hide Pooled, Affordable, Outflow, SettleManualOrder, SettleLiveOrderAttested;
    if op.SettleManual? {
      SettleManualOrderKeeps(p, op.id, op.settlement, currency);
    } else {
      SettleLiveOrderAttestedKeeps(p, op.id, op.orderQuantity, op.attestation, op.feeCurrency, currency);
    }
  }

  lemma LiveFillFunding(p: Portfolio, id: string, s: Symbol, side: Side, fill: Fill, currency: string)
    requires Pooled(p) && ApplyLiveFill(p, id, s, side, fill).Success?
    ensures var q := ApplyLiveFill(p, id, s, side, fill).value;
            && Pooled(q) && fill.executionId.Some?
            && (fill.executionId.value in p.applied ==> q == p)
            && (fill.executionId.value !in p.applied ==>
                  BackedExactlyWhen(p, q, s.quote, currency,
                      Affordable(p, id, s, side, Outflow(side, fill.quantity, fill.price, fill.fee))))
  {
    if fill.executionId.value !in p.applied {
      ApplyLiveFillKeeps(p, id, s, side, fill, currency);
    }
    hide Pooled, Affordable, Outflow;
  }

  // The commitments are covered at every point of the history, the last one first.
  ghost predicate FundedThroughout(p: Portfolio, ops: seq<Op>, currency: string)
    decreases |ops|
  {
    Backed(History(p, ops), currency) && (ops != [] ==> FundedThroughout(p, ops[..|ops| - 1], currency))
  }

  // Every operation is affordable where it comes.
  predicate AffordsAll(p: Portfolio, ops: seq<Op>, currency: string)
    decreases |ops|
  {
    ops != [] ==>
      var init := ops[..|ops| - 1];
      AffordsAll(p, init, currency) && Affords(History(p, init), ops[|ops| - 1], currency)
  }

  // From a funded portfolio, every point of a history has the commitments in a currency funded if
  // and only if every booking it adds is affordable when it is made.
  lemma {:induction false} HistoryStaysFundedIff(p: Portfolio, ops: seq<Op>, currency: string)
    requires Pooled(p) && Backed(p, currency)
    ensures Pooled(History(p, ops))
    ensures FundedThroughout(p, ops, currency) <==> AffordsAll(p, ops, currency)
    decreases |ops|
  {
    hide Backed, Pooled, Affords, Apply;
    if ops != [] {
      var init := ops[..|ops| - 1];
      HistoryStaysFundedIff(p, init, currency);
      StepFunding(History(p, init), ops[|ops| - 1], currency);
    }
  }
}
