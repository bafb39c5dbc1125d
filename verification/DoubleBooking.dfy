/**
 One exchange order, three ledgers. Its money can be booked by executions the monitor applies, by
 a manual settlement and by an operator attestation (src/portfolio/Portfolio.ts). Each ledger
 refuses its own repeats, and each writer looks at only some of the others: the lemmas say for
 every writer exactly when it books an exchange order that is booked already.
 */
module DoubleBooking {
  import opened Wrappers
  import opened Money
  import opened Orders
  import opened ManagedStore
  import opened LiveOrderMonitor
  import opened PortfolioLaws
  import opened AccountingHistory
  import P = Portfolio

  datatype Booking =
    | BySettlement(intentId: string)
    | ByAttestation(clientOrderId: string)
    | ByExecution(executionId: string)

  predicate IsBooked(p: P.Portfolio, b: Booking) {
    match b
    case BySettlement(i) => i in p.settlements
    case ByAttestation(o) => o in p.attestations
    case ByExecution(e) => e in p.applied
  }

  // The exchange order a booking is for. An execution is booked under the client order id, and
  // the order ledger knows the exchange order behind it.
  function ExchangeIdOf(orders: Ledger, p: P.Portfolio, b: Booking): Option<string>
    requires IsBooked(p, b)
  {
    match b
    case BySettlement(i) => p.settlements[i].orderId
    case ByAttestation(o) => Some(p.attestations[o].exchangeOrderId)
    case ByExecution(e) => ExchangeIdUnder(orders, p.applied[e].orderId)
  }

  function ExchangeIdUnder(orders: Ledger, id: string): Option<string> {
    if id in orders then orders[id].exchangeOrderId else None
  }

  // Two bookings of one exchange order, one of them for the whole order. Executions have ids of
  // their own, so two of them are two parts of the order.
  predicate Clash(orders: Ledger, p: P.Portfolio, a: Booking, b: Booking)
    requires IsBooked(p, a) && IsBooked(p, b)
  {
    && a != b && !(a.ByExecution? && b.ByExecution?)
    && ExchangeIdOf(orders, p, a).Some?
    && SameExternalOrderId(ExchangeIdOf(orders, p, a), ExchangeIdOf(orders, p, b))
  }

  ghost predicate BookedTwice(orders: Ledger, p: P.Portfolio) {
    exists a, b :: IsBooked(p, a) && IsBooked(p, b) && Clash(orders, p, a, b)
  }

  ghost predicate AlreadySettled(p: P.Portfolio, orderId: Option<string>) {
    orderId.Some? && exists i :: i in p.settlements && SameExternalOrderId(orderId, p.settlements[i].orderId)
  }

  ghost predicate AlreadyAttested(p: P.Portfolio, orderId: Option<string>) {
    orderId.Some?
        && exists o :: o in p.attestations && SameExternalOrderId(orderId, Some(p.attestations[o].exchangeOrderId))
  }

  ghost predicate AlreadyExecuted(orders: Ledger, p: P.Portfolio, orderId: Option<string>) {
    orderId.Some?
        && exists e :: e in p.applied && SameExternalOrderId(orderId, ExchangeIdUnder(orders, p.applied[e].orderId))
  }

  // `q` keeps what `p` booked.
  ghost predicate Keeps(p: P.Portfolio, q: P.Portfolio) {
    && (forall i :: i in p.settlements ==> i in q.settlements && q.settlements[i] == p.settlements[i])
    && (forall o :: o in p.attestations ==> o in q.attestations && q.attestations[o] == p.attestations[o])
    && (forall e :: e in p.applied ==> e in q.applied && q.applied[e] == p.applied[e])
  }

  predicate IsNew(p: P.Portfolio, q: P.Portfolio, b: Booking) {
    IsBooked(q, b) && !IsBooked(p, b)
  }

  // A new booking repeats an old one.
  ghost predicate Repeats(orders: Ledger, p: P.Portfolio, q: P.Portfolio)
    requires Keeps(p, q)
  {
    exists a, b :: IsNew(p, q, a) && IsBooked(p, b) && Clash(orders, q, a, b)
  }

  lemma SameIdIsSymmetric(a: Option<string>, b: Option<string>)
    ensures SameExternalOrderId(a, b) == SameExternalOrderId(b, a)
  {
  }

  lemma ClashIsSymmetric(orders: Ledger, p: P.Portfolio, a: Booking, b: Booking)
    requires IsBooked(p, a) && IsBooked(p, b)
    ensures Clash(orders, p, a, b) ==> Clash(orders, p, b, a)
  {
  }

  lemma NewClash(orders: Ledger, p: P.Portfolio, q: P.Portfolio)
    requires Keeps(p, q) && !BookedTwice(orders, p)
    requires forall a, b :: IsNew(p, q, a) && IsNew(p, q, b) ==> !Clash(orders, q, a, b)
    ensures BookedTwice(orders, q) <==> Repeats(orders, p, q)
  {
    forall a, b | IsBooked(q, a) && IsBooked(q, b) && Clash(orders, q, a, b)
      ensures (IsNew(p, q, a) && IsBooked(p, b)) || (IsNew(p, q, b) && IsBooked(p, a) && Clash(orders, q, b, a))
    {
      ClashIsSymmetric(orders, q, a, b);
      if IsBooked(p, a) && IsBooked(p, b) { assert Clash(orders, p, a, b); }
    }
  }

  // ---- Manual settlements and attestations ----

  lemma SettlementRepeatsIff(orders: Ledger, p: P.Portfolio, q: P.Portfolio, intentId: string, s: P.Settlement)
    requires !BookedTwice(orders, p) && intentId !in p.settlements && !AlreadySettled(p, s.orderId)
    requires q.settlements == p.settlements[intentId := s] && q.attestations == p.attestations && q.applied == p.applied
    ensures BookedTwice(orders, q) <==> AlreadyAttested(p, s.orderId) || AlreadyExecuted(orders, p, s.orderId)
  {
    var added := BySettlement(intentId);
    hide BookedTwice, SameExternalOrderId;
    NewClash(orders, p, q);
    if AlreadyAttested(p, s.orderId) {
      var o :| o in p.attestations && SameExternalOrderId(s.orderId, Some(p.attestations[o].exchangeOrderId));
      assert IsBooked(p, ByAttestation(o)) && Clash(orders, q, added, ByAttestation(o));
    }
    if AlreadyExecuted(orders, p, s.orderId) {
      var e :| e in p.applied && SameExternalOrderId(s.orderId, ExchangeIdUnder(orders, p.applied[e].orderId));
      assert IsBooked(p, ByExecution(e)) && Clash(orders, q, added, ByExecution(e));
    }
  }

  // A settlement looks at the other settlements only.
  lemma ManualSettlementBooksTwiceIff(orders: Ledger, p: P.Portfolio, intentId: string, s: P.Settlement)
    requires !BookedTwice(orders, p)
    requires intentId !in p.settlements && P.SettleManualOrder(p, intentId, s).Success?
    ensures BookedTwice(orders, P.SettleManualOrder(p, intentId, s).value)
       <==> AlreadyAttested(p, s.orderId) || AlreadyExecuted(orders, p, s.orderId)
  {
    SettledParts(p, intentId, s);
    SettleReservedFrame(p, intentId, s.symbol, s.side, s.quantity, s.price, s.fee);
    NotYetSettled(p, intentId, s);
    hide P.SettleReserved, P.SettleManualOrder, BookedTwice, SameExternalOrderId;
    SettlementRepeatsIff(orders, p, P.SettleManualOrder(p, intentId, s).value, intentId, s);
  }

  lemma NotYetSettled(p: P.Portfolio, intentId: string, s: P.Settlement)
    requires intentId !in p.settlements && P.SettleManualOrder(p, intentId, s).Success?
    ensures !AlreadySettled(p, s.orderId)
  {
    forall i | i in p.settlements { SameIdIsSymmetric(s.orderId, p.settlements[i].orderId); }
    hide P.SettleReserved;
  }

  // The records of other client order ids with executions of the same exchange order.
  ghost predicate ExecutedElsewhere(orders: Ledger, p: P.Portfolio, id: string, orderId: string) {
    exists e :: e in p.applied && p.applied[e].orderId != id
      && SameExternalOrderId(Some(orderId), ExchangeIdUnder(orders, p.applied[e].orderId))
  }

  lemma AttestationRepeatsIff(orders: Ledger, p: P.Portfolio, q: P.Portfolio, id: string, a: P.Attestation)
    requires !BookedTwice(orders, p) && id !in p.attestations
    requires !AlreadySettled(p, Some(a.exchangeOrderId)) && !AlreadyAttested(p, Some(a.exchangeOrderId))
    requires forall e :: e in p.applied ==> p.applied[e].orderId != id
    requires q.attestations == p.attestations[id := a] && q.settlements == p.settlements && q.applied == p.applied
    ensures BookedTwice(orders, q) <==> ExecutedElsewhere(orders, p, id, a.exchangeOrderId)
  {
    var added := ByAttestation(id);
    hide BookedTwice, SameExternalOrderId;
    NewClash(orders, p, q);
    if ExecutedElsewhere(orders, p, id, a.exchangeOrderId) {
      var e :| e in p.applied
          && SameExternalOrderId(Some(a.exchangeOrderId), ExchangeIdUnder(orders, p.applied[e].orderId));
      assert IsBooked(p, ByExecution(e)) && Clash(orders, q, added, ByExecution(e));
    }
  }

  // An attestation looks at the settlements, the attestations and the executions of its own
  // record: it repeats an order exactly when another record of that exchange order has executions.
  lemma AttestationBooksTwiceIff(
      orders: Ledger, p: P.Portfolio, id: string, orderQuantity: Money, a: P.Attestation, feeCurrency: FeeCurrency)
    requires !BookedTwice(orders, p)
    requires id !in p.attestations && P.SettleLiveOrderAttested(p, id, orderQuantity, a, feeCurrency).Success?
    ensures BookedTwice(orders, P.SettleLiveOrderAttested(p, id, orderQuantity, a, feeCurrency).value)
       <==> ExecutedElsewhere(orders, p, id, a.exchangeOrderId)
  {
    AttestedParts(p, id, orderQuantity, a, feeCurrency);
    SettleReservedFrame(p, id, a.symbol, a.side, a.quantity, a.price, a.fee);
    NotYetAccounted(p, id, orderQuantity, a, feeCurrency);
    hide P.SettleReserved, P.SettleLiveOrderAttested, BookedTwice, SameExternalOrderId;
    AttestationRepeatsIff(orders, p, P.SettleLiveOrderAttested(p, id, orderQuantity, a, feeCurrency).value, id, a);
  }

  // As long as no other record carries its exchange order id, which the command makes sure the
  // attested record carries, an attestation repeats nothing.
  lemma AttestationNeverBooksTwice(
      orders: Ledger, p: P.Portfolio, id: string, orderQuantity: Money, a: P.Attestation, feeCurrency: FeeCurrency)
    requires !BookedTwice(orders, p)
    requires id !in p.attestations && P.SettleLiveOrderAttested(p, id, orderQuantity, a, feeCurrency).Success?
    requires forall other :: other in orders && other != id
               ==> !SameExternalOrderId(Some(a.exchangeOrderId), orders[other].exchangeOrderId)
    ensures !BookedTwice(orders, P.SettleLiveOrderAttested(p, id, orderQuantity, a, feeCurrency).value)
  {
    AttestationBooksTwiceIff(orders, p, id, orderQuantity, a, feeCurrency);
    hide BookedTwice, P.SettleLiveOrderAttested;
  }

  lemma NotYetAccounted(p: P.Portfolio, id: string, orderQuantity: Money, a: P.Attestation, feeCurrency: FeeCurrency)
    requires id !in p.attestations && P.SettleLiveOrderAttested(p, id, orderQuantity, a, feeCurrency).Success?
    ensures !AlreadySettled(p, Some(a.exchangeOrderId)) && !AlreadyAttested(p, Some(a.exchangeOrderId))
    ensures forall e :: e in p.applied ==> p.applied[e].orderId != id
  {
    var orderId := Some(a.exchangeOrderId);
    forall i | i in p.settlements { SameIdIsSymmetric(orderId, p.settlements[i].orderId); }
    forall o | o in p.attestations { SameIdIsSymmetric(orderId, Some(p.attestations[o].exchangeOrderId)); }
    hide P.SettleReserved, SameExternalOrderId;
  }

  // ---- The monitor ----

  // The execution is booked when it is the next one the pass looks at.
  predicate Accepts(s: Progress, current: Order, snapshot: Ledger, market: Option<Products>, t: Trade) {
    && ProvenFor(t, snapshot, current.clientOrderId)
    && t.executionId !in s.booked && t.executionId !in s.portfolio.applied
    && FeeAutomatable(t, market) && !Overdraws(s.portfolio, current, t)
    && P.ApplyLiveFill(s.portfolio, current.clientOrderId, current.symbol, current.side, FillOf(t)).Success?
  }

  // Nothing but executions was added, and nothing but executions of one order.
  ghost predicate OnlyExecutions(p: P.Portfolio, q: P.Portfolio) {
    && q.settlements == p.settlements && q.attestations == p.attestations
    && (forall e :: e in p.applied ==> e in q.applied && q.applied[e] == p.applied[e])
  }

  ghost predicate OnlyExecutionsUnder(p: P.Portfolio, q: P.Portfolio, id: string) {
    OnlyExecutions(p, q) && forall e :: e in q.applied && e !in p.applied ==> q.applied[e].orderId == id
  }

  ghost predicate BooksUnder(p: P.Portfolio, q: P.Portfolio, id: string) {
    exists e :: e in q.applied && e !in p.applied && q.applied[e].orderId == id
  }

  lemma BooksUnderSteps(p: P.Portfolio, q: P.Portfolio, r: P.Portfolio, id: string)
    requires OnlyExecutions(p, q) && OnlyExecutions(q, r)
    ensures OnlyExecutions(p, r)
    ensures BooksUnder(p, r, id) <==> BooksUnder(p, q, id) || BooksUnder(q, r, id)
  {
    if BooksUnder(p, q, id) {
      var e :| e in q.applied && e !in p.applied && q.applied[e].orderId == id;
      assert e in r.applied;
    }
  }

  lemma AcceptedIsBooked(s: Progress, current: Order, snapshot: Ledger, market: Option<Products>, t: Trade)
    ensures var q := BookTrade(s, current, snapshot, market, t).portfolio;
            && OnlyExecutionsUnder(s.portfolio, q, current.clientOrderId)
            && (BooksUnder(s.portfolio, q, current.clientOrderId) <==> Accepts(s, current, snapshot, market, t))
            && (!Accepts(s, current, snapshot, market, t) ==> BookTrade(s, current, snapshot, market, t) == s)
  {
    if Accepts(s, current, snapshot, market, t) {
      LiveFillFrame(s.portfolio, current.clientOrderId, current.symbol, current.side, FillOf(t));
      assert t.executionId in BookTrade(s, current, snapshot, market, t).portfolio.applied;
    }
    hide ProvenFor, FeeAutomatable, Overdraws, P.ApplyLiveFill, P.ApplyFill;
  }

  ghost predicate AcceptsAny(s: Progress, current: Order, snapshot: Ledger, market: Option<Products>, ts: seq<Trade>) {
    exists t :: t in ts && Accepts(s, current, snapshot, market, t)
  }

  // The loop books something exactly when it accepts some execution as things stand before it:
  // until the first is booked nothing changes.
  lemma {:induction false} LoopBooksIff(
      s: Progress, current: Order, snapshot: Ledger, market: Option<Products>, ts: seq<Trade>)
    ensures var q := BookTrades(s, current, snapshot, market, ts).portfolio;
            && OnlyExecutionsUnder(s.portfolio, q, current.clientOrderId)
            && (AcceptsAny(s, current, snapshot, market, ts) <==> BooksUnder(s.portfolio, q, current.clientOrderId))
    ensures !AcceptsAny(s, current, snapshot, market, ts) ==> BookTrades(s, current, snapshot, market, ts) == s
    decreases |ts|
  {
    if ts != [] {
      var init, t := ts[..|ts| - 1], ts[|ts| - 1];
      LoopBooksIff(s, current, snapshot, market, init);
      var mid := BookTrades(s, current, snapshot, market, init);
      AcceptedIsBooked(mid, current, snapshot, market, t);
      hide Accepts, BookTrade, BooksUnder;
      BooksUnderSteps(s.portfolio, mid.portfolio, BookTrade(mid, current, snapshot, market, t).portfolio,
          current.clientOrderId);
      assert forall u :: u in ts <==> u in init || u == t;
    }
  }

  // The exchange order of a record is settled or attested as a whole.
  ghost predicate BookedWhole(orders: Ledger, p: P.Portfolio, id: string) {
    AlreadySettled(p, ExchangeIdUnder(orders, id)) || AlreadyAttested(p, ExchangeIdUnder(orders, id))
  }

  lemma ExecutionsRepeatIff(orders: Ledger, p: P.Portfolio, q: P.Portfolio)
    requires !BookedTwice(orders, p) && OnlyExecutions(p, q)
    ensures BookedTwice(orders, q) <==> exists id :: BooksUnder(p, q, id) && BookedWhole(orders, p, id)
  {
    hide BookedTwice, SameExternalOrderId;
    NewClash(orders, p, q);
    if a, b :| IsNew(p, q, a) && IsBooked(p, b) && Clash(orders, q, a, b) {
      var id := q.applied[a.executionId].orderId;
      assert BooksUnder(p, q, id) && BookedWhole(orders, p, id);
    }
    if id :| BooksUnder(p, q, id) && BookedWhole(orders, p, id) {
      WholeBookingRepeats(orders, p, q, id);
    }
  }

  lemma WholeBookingRepeats(orders: Ledger, p: P.Portfolio, q: P.Portfolio, id: string)
    requires OnlyExecutions(p, q) && BooksUnder(p, q, id) && BookedWhole(orders, p, id)
    ensures Repeats(orders, p, q)
  {
    var orderId := ExchangeIdUnder(orders, id);
    hide SameExternalOrderId;
    var e :| e in q.applied && e !in p.applied && q.applied[e].orderId == id;
    if AlreadySettled(p, orderId) {
      var i :| i in p.settlements && SameExternalOrderId(orderId, p.settlements[i].orderId);
      assert IsNew(p, q, ByExecution(e)) && IsBooked(p, BySettlement(i))
          && Clash(orders, q, ByExecution(e), BySettlement(i));
    } else {
      var o :| o in p.attestations && SameExternalOrderId(orderId, Some(p.attestations[o].exchangeOrderId));
      assert IsNew(p, q, ByExecution(e)) && IsBooked(p, ByAttestation(o))
          && Clash(orders, q, ByExecution(e), ByAttestation(o));
    }
  }

  // The monitor looks at neither of the other ledgers. It books an order that is settled or
  // attested exactly when its record is still observable and a proven, new, quote-fee execution
  // that overdraws nothing and that the portfolio takes was read.
  lemma PassBooksTwiceIff(pass: Pass, snapshot: Ledger, id: string, ev: Evidence)
    requires id in snapshot && snapshot[id].clientOrderId == id
    requires !BookedTwice(snapshot, pass.progress.portfolio)
    ensures BookedTwice(snapshot, Observe(pass, snapshot, id, ev).progress.portfolio)
       <==> && BookedWhole(snapshot, pass.progress.portfolio, id)
            && Observable(snapshot[id].status)
            && AcceptsAny(pass.progress, snapshot[id], snapshot, ev.market, ev.executions)
  {
    var p, q := pass.progress.portfolio, Observe(pass, snapshot, id, ev).progress.portfolio;
    ObservedBooks(pass, snapshot, id, ev);
    hide Observe, BookedTwice, AcceptsAny, BookedWhole;
    ExecutionsRepeatIff(snapshot, p, q);
  }

  lemma ObservedBooks(pass: Pass, snapshot: Ledger, id: string, ev: Evidence)
    requires id in snapshot && snapshot[id].clientOrderId == id
    ensures var p, q := pass.progress.portfolio, Observe(pass, snapshot, id, ev).progress.portfolio;
            && OnlyExecutionsUnder(p, q, id)
            && (BooksUnder(p, q, id)
                <==> Observable(snapshot[id].status)
                     && AcceptsAny(pass.progress, snapshot[id], snapshot, ev.market, ev.executions))
  {
    LoopBooksIff(pass.progress, snapshot[id], snapshot, ev.market, ev.executions);
    hide AcceptsAny, BookTrades, ProvenQuantity;
  }

  // ---- An order booked twice ----

  const BTC := Symbol("BTC", "CAD")
  const SOLD :=
    Order("live-1", Some("7"), BTC, Sell, Limit, Open, SCALE, 0, None, Some(SCALE), 0, QuoteFee, "", None, None)
  const SALE := Trade("e1", "7", BTC, Sell, SCALE, SCALE, 0, "")
  const HOLDING := P.EMPTY.(cash := map["CAD" := 0], positions := map[BTC := P.Position(2 * SCALE, 0, 0, None)])

  // The monitor books the sale of an open order for any portfolio that holds enough.
  lemma SaleIsBooked(p: P.Portfolio)
    requires "CAD" in p.cash && p.Held(BTC) >= SCALE && "e1" !in p.applied
    ensures var orders, ev := map["live-1" := SOLD], Evidence(SOLD, [SALE], None);
            var q := Observe(Begin(orders, Loaded(p)), orders, "live-1", ev).progress.portfolio;
            && q.Cash("CAD") == p.Cash("CAD") + SCALE && q.Held(BTC) == p.Held(BTC) - SCALE
            && q.settlements == p.settlements && q.attestations == p.attestations
            && q.applied == p.applied["e1" := P.AppliedExecution("live-1", BTC, Sell, SCALE, SCALE, 0)]
            && (p.reservations == map[] ==> q.reservations == map[]) && "CAD" in q.cash
  {
    var s := Begin(map["live-1" := SOLD], Loaded(p)).progress;
    assert Mul(SCALE, SCALE) == SCALE && "" != "e1";
    assert ProvenFor(SALE, map["live-1" := SOLD], "live-1");
    assert BookTrades(s, SOLD, map["live-1" := SOLD], None, []) == s;
    assert [SALE][..0] == [];
    assert BookTrades(s, SOLD, map["live-1" := SOLD], None, [SALE])
        == BookTrade(s, SOLD, map["live-1" := SOLD], None, SALE);
    assert P.ApplyLiveFill(p, "live-1", BTC, Sell, FillOf(SALE)).Success?;
  }

  // A sold order whose execution the monitor booked is booked again by a manual settlement of the
  // same exchange order: nothing was attested, and the proceeds arrive twice.
  lemma ExecutedOrderIsSettledAgain()
    ensures exists orders: Ledger, p: P.Portfolio, ev: Evidence, s: P.Settlement ::
              && "live-1" in orders && p.Cash("CAD") == 0
              && var booked := Observe(Begin(orders, Loaded(p)), orders, "live-1", ev).progress.portfolio;
                 && booked.Cash("CAD") == SCALE && !BookedTwice(orders, booked) && !AlreadyAttested(booked, s.orderId)
                 && P.SettleManualOrder(booked, "m1", s).Success?
                 && P.SettleManualOrder(booked, "m1", s).value.Cash("CAD") == 2 * SCALE
  {
    var orders, ev := map["live-1" := SOLD], Evidence(SOLD, [SALE], None);
    SaleIsBooked(HOLDING);
    var booked := Observe(Begin(orders, Loaded(HOLDING)), orders, "live-1", ev).progress.portfolio;
    hide Observe;
    var s := P.Settlement(Some("7"), BTC, Sell, SCALE, SCALE, 0, P.ExchangeValidated);
    assert !BookedTwice(orders, booked) && !AlreadyAttested(booked, s.orderId);
    SoldIsSettled(booked, s);
    assert "live-1" in orders && HOLDING.Cash("CAD") == 0;
  }

  lemma SoldIsSettled(p: P.Portfolio, s: P.Settlement)
    requires "CAD" in p.cash && p.Held(BTC) >= SCALE && p.settlements == map[]
    requires s == P.Settlement(Some("7"), BTC, Sell, SCALE, SCALE, 0, P.ExchangeValidated)
    ensures P.SettleManualOrder(p, "m1", s).Success?
    ensures P.SettleManualOrder(p, "m1", s).value.Cash("CAD") == p.Cash("CAD") + SCALE
  {
    assert Mul(SCALE, SCALE) == SCALE;
  }
}
