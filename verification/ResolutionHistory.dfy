/**
 An operator resolution of a live order that died between its two writes, or whose second write
 failed: the aggregate is booked, the record is still in flight. Monitor passes of any evidence
 may come before the operator repeats the command. The repeat completes exactly when the record
 still has the checked identity, and the money has moved once exactly when no pass accepted an
 execution of the order in between.
 */
module ResolutionHistory {
  import opened Wrappers
  import opened Money
  import opened Orders
  import opened ManagedStore
  import opened ObserverRules
  import opened LiveOrderMonitor
  import opened DoubleBooking
  import opened MonitorLaws
  import opened OperatorResolution
  import PortfolioLaws
  import P = Portfolio

  datatype Stores = Stores(orders: Ledger, portfolio: P.Portfolio)

  // A monitor pass over the given orders; a crash can keep its portfolio from being written.
  datatype Monitoring = Monitoring(ids: seq<string>, evidence: map<string, Evidence>, crashes: bool)

  function Start(s: Stores): Pass {
    Begin(s.orders, Loaded(s.portfolio))
  }

  // The stores the locked phase of a pass leaves.
  function AfterPass(s: Stores, m: Monitoring): Stores {
    var end := ObserveAll(Start(s), s.orders, m.evidence, m.ids);
    Stores(end.orders, if end.progress.dirty && !m.crashes then end.progress.portfolio else s.portfolio)
  }

  function AfterPasses(s: Stores, ms: seq<Monitoring>): Stores
    decreases |ms|
  {
    if ms == [] then s else AfterPass(AfterPasses(s, ms[..|ms| - 1]), ms[|ms| - 1])
  }

  ghost predicate KeyedLedger(orders: Ledger) {
    forall id :: id in orders ==> orders[id].clientOrderId == id
  }

  // ---- When a pass books executions of an order ----

  // One of the visits to the order finds it observable and accepts an execution.
  ghost predicate AcceptedOnVisit(
      start: Pass, snapshot: Ledger, evidence: map<string, Evidence>, ids: seq<string>, id: string)
    decreases |ids|
  {
    ids != []
    && (AcceptedOnVisit(start, snapshot, evidence, ids[..|ids| - 1], id)
        || (ids[|ids| - 1] == id && id in evidence && id in snapshot && Observable(snapshot[id].status)
            && AcceptsAny(ObserveAll(start, snapshot, evidence, ids[..|ids| - 1]).progress, snapshot[id], snapshot,
                          evidence[id].market, evidence[id].executions)))
  }

  ghost predicate PassBooks(s: Stores, m: Monitoring, id: string) {
    !m.crashes && AcceptedOnVisit(Start(s), s.orders, m.evidence, m.ids, id)
  }

  lemma BooksUnderOther(p: P.Portfolio, q: P.Portfolio, other: string, id: string)
    requires OnlyExecutionsUnder(p, q, other)
    ensures OnlyExecutions(p, q)
    ensures id != other ==> !BooksUnder(p, q, id)
  {
  }

  lemma {:induction false} VisitsBookIff(
      start: Pass, snapshot: Ledger, evidence: map<string, Evidence>, ids: seq<string>, id: string)
    requires KeyedLedger(snapshot)
    ensures var q := ObserveAll(start, snapshot, evidence, ids).progress.portfolio;
            && OnlyExecutions(start.progress.portfolio, q)
            && (BooksUnder(start.progress.portfolio, q, id) <==> AcceptedOnVisit(start, snapshot, evidence, ids, id))
    decreases |ids|
  {
    if ids != [] {
      var init, other := ids[..|ids| - 1], ids[|ids| - 1];
      VisitsBookIff(start, snapshot, evidence, init, id);
      if other in evidence && other in snapshot {
        var rest := ObserveAll(start, snapshot, evidence, init);
        var next := Observe(rest, snapshot, other, evidence[other]).progress.portfolio;
        ObservedBooks(rest, snapshot, other, evidence[other]);
        hide Observe, AcceptsAny, BooksUnder;
        BooksUnderOther(rest.progress.portfolio, next, other, id);
        BooksUnderSteps(start.progress.portfolio, rest.progress.portfolio, next, id);
      }
    }
  }

  // A pass that changed the portfolio saves it.
  lemma {:induction false} LoopIsDirty(
      s: Progress, current: Order, snapshot: Ledger, market: Option<Products>, ts: seq<Trade>)
    ensures var t := BookTrades(s, current, snapshot, market, ts);
            !t.dirty ==> t.portfolio == s.portfolio && !s.dirty
    decreases |ts|
  {
    if ts != [] {
      LoopIsDirty(s, current, snapshot, market, ts[..|ts| - 1]);
      hide ProvenFor, FeeAutomatable, Overdraws, P.ApplyLiveFill;
    }
  }

  lemma {:induction false} ChangedIsDirty(
      start: Pass, snapshot: Ledger, evidence: map<string, Evidence>, ids: seq<string>)
    ensures var end := ObserveAll(start, snapshot, evidence, ids).progress;
            !end.dirty ==> end.portfolio == start.progress.portfolio && !start.progress.dirty
    decreases |ids|
  {
    if ids != [] {
      ChangedIsDirty(start, snapshot, evidence, ids[..|ids| - 1]);
      var rest := ObserveAll(start, snapshot, evidence, ids[..|ids| - 1]);
      var id := ids[|ids| - 1];
      if id in evidence && id in snapshot {
        LoopIsDirty(rest.progress, snapshot[id], snapshot, evidence[id].market, evidence[id].executions);
      }
      hide BookTrades, ProvenQuantity, ReleaseAllowed;
    }
  }

  lemma PassBooksIff(s: Stores, m: Monitoring, id: string)
    requires KeyedLedger(s.orders)
    ensures OnlyExecutions(s.portfolio, AfterPass(s, m).portfolio)
    ensures BooksUnder(s.portfolio, AfterPass(s, m).portfolio, id) <==> PassBooks(s, m, id)
  {
    VisitsBookIff(Start(s), s.orders, m.evidence, m.ids, id);
    ChangedIsDirty(Start(s), s.orders, m.evidence, m.ids);
    hide ObserveAll, AcceptedOnVisit;
  }

  // A whole pass repeats an exchange order exactly when it books an execution of a record whose
  // exchange order is settled or attested.
  lemma PassRepeatsIff(s: Stores, m: Monitoring)
    requires KeyedLedger(s.orders) && !BookedTwice(s.orders, s.portfolio)
    ensures BookedTwice(s.orders, AfterPass(s, m).portfolio)
       <==> exists id :: PassBooks(s, m, id) && BookedWhole(s.orders, s.portfolio, id)
  {
    var q := AfterPass(s, m).portfolio;
    PassBooksIff(s, m, "");
    forall id ensures BooksUnder(s.portfolio, q, id) <==> PassBooks(s, m, id) {
      PassBooksIff(s, m, id);
    }
    hide AfterPass, PassBooks, BooksUnder, BookedTwice, BookedWhole, OnlyExecutions;
    ExecutionsRepeatIff(s.orders, s.portfolio, q);
  }

  lemma {:induction false} PassIsKeyed(start: Pass, snapshot: Ledger, evidence: map<string, Evidence>, ids: seq<string>)
    requires KeyedLedger(start.orders)
    ensures KeyedLedger(ObserveAll(start, snapshot, evidence, ids).orders)
    decreases |ids|
  {
    if ids != [] {
      PassIsKeyed(start, snapshot, evidence, ids[..|ids| - 1]);
      hide BookTrades, ProvenQuantity, ReleaseAllowed;
    }
  }

  ghost predicate SomePassBooks(s: Stores, ms: seq<Monitoring>, id: string)
    decreases |ms|
  {
    ms != []
    && (SomePassBooks(s, ms[..|ms| - 1], id) || PassBooks(AfterPasses(s, ms[..|ms| - 1]), ms[|ms| - 1], id))
  }

  // Over any sequence of passes: executions of the order were booked exactly when some pass
  // accepted one.
  lemma {:induction false} PassesBookIff(s: Stores, ms: seq<Monitoring>, id: string)
    requires KeyedLedger(s.orders)
    ensures var t := AfterPasses(s, ms);
            && KeyedLedger(t.orders) && OnlyExecutions(s.portfolio, t.portfolio)
            && (BooksUnder(s.portfolio, t.portfolio, id) <==> SomePassBooks(s, ms, id))
    decreases |ms|
  {
    if ms != [] {
      var init, m := ms[..|ms| - 1], ms[|ms| - 1];
      PassesBookIff(s, init, id);
      var t := AfterPasses(s, init);
      PassBooksIff(t, m, id);
      PassIsKeyed(Start(t), t.orders, m.evidence, m.ids);
      assert AfterPasses(s, ms) == AfterPass(t, m);
      hide AfterPass, PassBooks, BooksUnder, KeyedLedger;
      BooksUnderSteps(s.portfolio, t.portfolio, AfterPass(t, m).portfolio, id);
    }
  }

  // ---- The repeated command ----

  // After a first resolution that booked the aggregate but not the record, and any monitor passes
  // after it: the same command succeeds exactly when the record still shows the identity it
  // checks, it then writes the FILLED record and books nothing more, and executions of the order
  // are booked beside its attestation exactly when some pass accepted one.
  lemma RetryCompletes(orders: Ledger, stored: Stored, id: string, a: Attested, ms: seq<Monitoring>)
    requires KeyedLedger(orders)
    requires Attestation(orders, stored, id, a).Some? && id !in Attestable(stored).attestations
    ensures var p := Attestation(orders, stored, id, a).value.1;
            var t := AfterPasses(Stores(orders, p), ms);
            && Attestation(t.orders, Loaded(t.portfolio), id, a)
                 == (if id in t.orders && CanAttest(t.orders[id], a.initial, a.latest, a.orderId)
                     then Some((t.orders[id := FilledRecord(t.orders[id], a)], t.portfolio)) else None)
            && id in t.portfolio.attestations
            && t.portfolio.attestations[id] == AttestationOf(orders[id], a.latest, a.orderId, a.fee)
            && (AccountedByExecution(t.portfolio, id) <==> SomePassBooks(Stores(orders, p), ms, id))
  {
    var p := Attestation(orders, stored, id, a).value.1;
    var t := AfterPasses(Stores(orders, p), ms);
    var booked := AttestationOf(orders[id], a.latest, a.orderId, a.fee);
    FirstBookingIsAlone(Attestable(stored), id, orders[id].quantity, booked, a.feeCurrency);
    PassesBookIff(Stores(orders, p), ms, id);
    hide AfterPasses, SomePassBooks;
    if id in t.orders && CanAttest(t.orders[id], a.initial, a.latest, a.orderId) {
      SameBooking(orders[id], t.orders[id], a);
      RepeatIsAccepted(p, t.portfolio, id, orders[id].quantity, booked, a.feeCurrency);
    }
    hide CanAttest, P.SettleLiveOrderAttested;
  }

  function FilledRecord(current: Order, a: Attested): Order {
    ObserverRules.Attested(current, a.latest, a.fee).(feeCurrency := a.feeCurrency)
  }

  lemma FirstBookingIsAlone(p: P.Portfolio, id: string, quantity: Money, a: P.Attestation, f: FeeCurrency)
    requires id !in p.attestations && P.SettleLiveOrderAttested(p, id, quantity, a, f).Success?
    ensures var q := P.SettleLiveOrderAttested(p, id, quantity, a, f).value;
            && !AccountedByExecution(q, id) && id in q.attestations && q.attestations[id] == a
            && P.SettleLiveOrderAttested(q, id, quantity, a, f) == Success(q)
  {
    SettledIsRecorded(p, id, quantity, a, f);
    NotYetAccounted(p, id, quantity, a, f);
    PortfolioLaws.SettleReservedFrame(p, id, a.symbol, a.side, a.quantity, a.price, a.fee);
    hide P.SettleReserved;
  }

  // The identity the command checks determines what it books.
  lemma SameBooking(first: Order, later: Order, a: Attested)
    requires CanAttest(first, a.initial, a.latest, a.orderId) && CanAttest(later, a.initial, a.latest, a.orderId)
    ensures AttestationOf(later, a.latest, a.orderId, a.fee) == AttestationOf(first, a.latest, a.orderId, a.fee)
    ensures later.quantity == first.quantity
  {
    hide SameExternalOrderId;
  }

  lemma RepeatIsAccepted(p: P.Portfolio, q: P.Portfolio, id: string, quantity: Money, a: P.Attestation, f: FeeCurrency)
    requires id in p.attestations && P.SettleLiveOrderAttested(p, id, quantity, a, f) == Success(p)
    requires q.attestations == p.attestations
    ensures P.SettleLiveOrderAttested(q, id, quantity, a, f) == Success(q)
  {
    hide P.SettleReserved, SameExternalOrderId;
  }

  // Once the FILLED record is written no pass books the order or touches the record again.
  lemma {:induction false} CompletedIsNotRevisited(s: Stores, ms: seq<Monitoring>, id: string)
    requires KeyedLedger(s.orders) && id in s.orders && !Observable(s.orders[id].status)
    ensures var t := AfterPasses(s, ms);
            && KeyedLedger(t.orders) && id in t.orders && t.orders[id] == s.orders[id]
            && OnlyExecutions(s.portfolio, t.portfolio) && !BooksUnder(s.portfolio, t.portfolio, id)
    decreases |ms|
  {
    if ms != [] {
      var init, m := ms[..|ms| - 1], ms[|ms| - 1];
      CompletedIsNotRevisited(s, init, id);
      var t := AfterPasses(s, init);
      FinalOrdersAreNotRevisited(Start(t), t.orders, m.evidence, m.ids, id);
      PassBooksIff(t, m, id);
      PassIsKeyed(Start(t), t.orders, m.evidence, m.ids);
      NotAcceptedUnlessObservable(Start(t), t.orders, m.evidence, m.ids, id);
      hide ObserveAll, KeyedLedger, BooksUnder, AcceptedOnVisit;
      BooksUnderSteps(s.portfolio, t.portfolio, AfterPass(t, m).portfolio, id);
    }
  }

  lemma {:induction false} NotAcceptedUnlessObservable(
      start: Pass, snapshot: Ledger, evidence: map<string, Evidence>, ids: seq<string>, id: string)
    requires id in snapshot && !Observable(snapshot[id].status)
    ensures !AcceptedOnVisit(start, snapshot, evidence, ids, id)
    decreases |ids|
  {
    if ids != [] {
      NotAcceptedUnlessObservable(start, snapshot, evidence, ids[..|ids| - 1], id);
    }
  }

  // After a completed resolution and any monitor passes the same command still succeeds, and
  // leaves both stores as they are.
  lemma CompletedRepeatsWithoutEffect(orders: Ledger, stored: Stored, id: string, a: Attested, ms: seq<Monitoring>)
    requires KeyedLedger(orders) && Attestation(orders, stored, id, a).Some?
    ensures var (ledger, p) := Attestation(orders, stored, id, a).value;
            var t := AfterPasses(Stores(ledger, p), ms);
            Attestation(t.orders, Loaded(t.portfolio), id, a) == Some((t.orders, t.portfolio))
  {
    var (ledger, p) := Attestation(orders, stored, id, a).value;
    var booked := AttestationOf(orders[id], a.latest, a.orderId, a.fee);
    SettledIsRecorded(Attestable(stored), id, orders[id].quantity, booked, a.feeCurrency);
    FilledKeepsIdentity(orders[id], a);
    CompletedIsNotRevisited(Stores(ledger, p), ms, id);
    var t := AfterPasses(Stores(ledger, p), ms);
    RepeatIsAccepted(p, t.portfolio, id, orders[id].quantity, booked, a.feeCurrency);
    assert t.orders[id := t.orders[id]] == t.orders;
    hide AfterPasses, CanAttest, P.SettleLiveOrderAttested, KeyedLedger, OnlyExecutions;
  }

  // ---- The money can move twice ----

  const RESOLUTION :=
    Attested(SOLD, SOLD.(status := Filled, filledQuantity := SCALE, averagePrice := Some(SCALE)), "7", 0, QuoteFee)

  const READING := Monitoring(["live-1"], map["live-1" := Evidence(SOLD, [SALE], None)], false)

  // An open sale is attested and the command dies before its second write; the next pass reads
  // the execution and books it beside the attestation; the repeated command succeeds.
  lemma AttestedOrderIsBookedAgain()
    ensures exists orders: Ledger, stored: Stored, a: Attested, m: Monitoring ::
              && stored.Loaded? && stored.portfolio.Cash("CAD") == 0
              && Attestation(orders, stored, "live-1", a).Some?
              && var p := Attestation(orders, stored, "live-1", a).value.1;
                 var t := AfterPass(Stores(orders, p), m);
                 && p.Cash("CAD") == SCALE && t.portfolio.Cash("CAD") == 2 * SCALE
                 && Attestation(t.orders, Loaded(t.portfolio), "live-1", a).Some?
                 && Attestation(t.orders, Loaded(t.portfolio), "live-1", a).value.1 == t.portfolio
  {
    var orders := map["live-1" := SOLD];
    var p := SoldIsAttested();
    SaleIsReadAgain(p);
    RetryCompletes(orders, Loaded(HOLDING), "live-1", RESOLUTION, [READING]);
    assert [READING][..0] == [] && AfterPasses(Stores(orders, p), [READING]) == AfterPass(Stores(orders, p), READING);
    hide AfterPass, Attestation, AfterPasses;
    assert Loaded(HOLDING).Loaded? && HOLDING.Cash("CAD") == 0;
  }

  lemma SaleIsReadAgain(p: P.Portfolio)
    requires "CAD" in p.cash && p.Held(BTC) >= SCALE && p.applied == map[]
    ensures var t := AfterPass(Stores(map["live-1" := SOLD], p), READING);
            t.orders == map["live-1" := SOLD] && t.portfolio.Cash("CAD") == p.Cash("CAD") + SCALE
  {
    SaleIsBooked(p);
    var orders, ev := map["live-1" := SOLD], Evidence(SOLD, [SALE], None);
    var start := Start(Stores(orders, p));
    ChangedIsDirty(start, orders, READING.evidence, READING.ids);
    hide BookTrades, ProvenQuantity;
    assert ["live-1"][..0] == [] && ObserveAll(start, orders, READING.evidence, []) == start;
    assert ObserveAll(start, orders, READING.evidence, ["live-1"]) == Observe(start, orders, "live-1", ev);
    assert Adopt(SOLD, SOLD) == SOLD;
    assert orders["live-1" := SOLD] == orders;
  }

  lemma SoldIsAttested() returns (p: P.Portfolio)
    ensures Attestation(map["live-1" := SOLD], Loaded(HOLDING), "live-1", RESOLUTION).Some?
    ensures p == Attestation(map["live-1" := SOLD], Loaded(HOLDING), "live-1", RESOLUTION).value.1
    ensures p.Cash("CAD") == SCALE && p.Held(BTC) == SCALE && p.applied == map[] && "CAD" in p.cash
  {
    assert Mul(SCALE, SCALE) == SCALE;
    p := Attestation(map["live-1" := SOLD], Loaded(HOLDING), "live-1", RESOLUTION).value.1;
  }
}
