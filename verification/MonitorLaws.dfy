/**
 What a monitor pass guarantees, for any evidence however stale or incomplete: its portfolio is a
 history of idempotent accounting operations, its ledger is a run of the submission protocol, and
 a reservation is given back only while no execution of the order is proven. The last part also
 says exactly when that rule still gives back the funds of an order the exchange reports as
 filled, and that an order a crashed pass left in a final state is never booked again.
 */
module MonitorLaws {
  import opened Wrappers
  import opened Money
  import opened Orders
  import opened ManagedStore
  import opened ObserverRules
  import opened SubmissionRules
  import opened SubmissionProtocol
  import opened LiveOrderMonitor
  import opened PortfolioLaws
  import opened AccountingHistory
  import P = Portfolio

  // ---- The portfolio of a pass is an accounting history ----

  lemma HistoryAppend(p: P.Portfolio, ops: seq<Op>, op: Op)
    ensures History(p, ops + [op]) == Apply(History(p, ops), op)
  {
    assert (ops + [op])[..|ops|] == ops;
  }

  lemma {:induction false} HistoryConcat(p: P.Portfolio, ops: seq<Op>, more: seq<Op>)
    ensures History(p, ops + more) == History(History(p, ops), more)
    decreases |more|
  {
    if more == [] {
      assert ops + more == ops;
    } else {
      var init := more[..|more| - 1];
      assert ops + more == (ops + init) + [more[|more| - 1]];
      HistoryConcat(p, ops, init);
      HistoryAppend(p, ops + init, more[|more| - 1]);
    }
  }

  // The order or intent an accounting operation is for.
  function IdOf(op: Op): string {
    op.id
  }

  lemma {:induction false} BookTradesIsHistory(
      s: Progress, current: Order, snapshot: Ledger, market: Option<Products>, ts: seq<Trade>)
    returns (ops: seq<Op>)
    ensures BookTrades(s, current, snapshot, market, ts).portfolio == History(s.portfolio, ops)
    ensures forall op :: op in ops ==> IdOf(op) == current.clientOrderId
    decreases |ts|
  {
    ops := [];
    if ts != [] {
      ops := BookTradesIsHistory(s, current, snapshot, market, ts[..|ts| - 1]);
      var before := BookTrades(s, current, snapshot, market, ts[..|ts| - 1]);
      var t := ts[|ts| - 1];
      if BookTrade(before, current, snapshot, market, t) != before {
        var op := LiveFill(current.clientOrderId, current.symbol, current.side, FillOf(t));
        HistoryAppend(s.portfolio, ops, op);
        ops := ops + [op];
      }
    }
  }

  lemma {:induction false} PassIsHistory(
      pass: Pass, snapshot: Ledger, evidence: map<string, Evidence>, ids: seq<string>)
    returns (ops: seq<Op>)
    requires forall id :: id in snapshot ==> snapshot[id].clientOrderId == id
    ensures ObserveAll(pass, snapshot, evidence, ids).progress.portfolio == History(pass.progress.portfolio, ops)
    ensures forall op :: op in ops ==> IdOf(op) in ids
    decreases |ids|
  {
    ops := [];
    if ids != [] {
      ops := PassIsHistory(pass, snapshot, evidence, ids[..|ids| - 1]);
      var rest := ObserveAll(pass, snapshot, evidence, ids[..|ids| - 1]);
      var id := ids[|ids| - 1];
      if id in evidence && id in snapshot && Observable(snapshot[id].status) {
        var more := BookTradesIsHistory(rest.progress, snapshot[id], snapshot, evidence[id].market,
            evidence[id].executions);
        HistoryConcat(pass.progress.portfolio, ops, more);
        ops := ops + more;
        HistoryAppend(pass.progress.portfolio, ops, Release(snapshot[id].clientOrderId));
        if ObserveAll(pass, snapshot, evidence, ids).progress.portfolio != History(pass.progress.portfolio, ops) {
          ops := ops + [Release(snapshot[id].clientOrderId)];
        }
      }
    }
  }

  // Whatever the evidence, the balances move by exactly what the pass adds to the books, and the
  // reserved pool stays the sum of the active reservations.
  lemma PassIsExplained(
      orders: Ledger, stored: Stored, evidence: map<string, Evidence>, ids: seq<string>, currency: string,
      symbol: Symbol)
    requires forall id :: id in orders ==> orders[id].clientOrderId == id
    ensures var begin := Begin(orders, stored);
            var end := ObserveAll(begin, orders, evidence, ids);
            && Explained(begin.progress.portfolio, end.progress.portfolio, currency, symbol)
            && (Pooled(begin.progress.portfolio) && OneIntentPerExchangeOrder(begin.progress.portfolio)
                ==> Pooled(end.progress.portfolio) && OneIntentPerExchangeOrder(end.progress.portfolio))
  {
    var begin := Begin(orders, stored);
    var ops := PassIsHistory(begin, orders, evidence, ids);
    hide ObserveAll, Explained, Pooled;
    BooksExplainBalances(begin.progress.portfolio, ops, currency, symbol);
    if Pooled(begin.progress.portfolio) && OneIntentPerExchangeOrder(begin.progress.portfolio) {
      HistoryKeepsPool(begin.progress.portfolio, ops);
    }
  }

  // ---- A pass leaves the funds of protected orders alone ----

  // The same reservation, or none, on both sides.
  predicate ReservedAlike(p: P.Portfolio, q: P.Portfolio, id: string) {
    && (id in p.reservations <==> id in q.reservations)
    && (id in p.reservations ==> q.reservations[id] == p.reservations[id])
  }

  lemma LiveFillKeepsOtherReservations(p: P.Portfolio, orderId: string, s: Symbol, side: Side, fill: P.Fill, id: string)
    requires orderId != id && P.ApplyLiveFill(p, orderId, s, side, fill).Success?
    ensures ReservedAlike(p, P.ApplyLiveFill(p, orderId, s, side, fill).value, id)
  {
    if fill.executionId.value !in p.applied {
      LiveFillParts(p, orderId, s, side, fill);
      ApplyFillKeepsReservations(p, s, side, fill.quantity, fill.price, fill.fee);
      hide Mul, P.ApplyFill, P.ApplyLiveFill;
    }
  }

  lemma SettlementsKeepOtherReservations(p: P.Portfolio, op: Op, id: string)
    requires op.id != id && (op.SettleManual? || op.Attest?) && Attempt(p, op).Success?
    ensures ReservedAlike(p, Attempt(p, op).value, id)
  {
    if op.SettleManual? {
      var s := op.settlement;
      if op.id !in p.settlements {
        SettledParts(p, op.id, s);
        SettleReservedFrame(p, op.id, s.symbol, s.side, s.quantity, s.price, s.fee);
        hide P.SettleReserved, P.SettleManualOrder;
      }
    } else {
      var a := op.attestation;
      if op.id !in p.attestations {
        AttestedParts(p, op.id, op.orderQuantity, a, op.feeCurrency);
        SettleReservedFrame(p, op.id, a.symbol, a.side, a.quantity, a.price, a.fee);
        hide P.SettleReserved, P.SettleLiveOrderAttested;
      }
    }
  }

  // An accounting operation touches no reservation but its own.
  lemma OpKeepsOtherReservations(p: P.Portfolio, op: Op, id: string)
    requires IdOf(op) != id
    ensures ReservedAlike(p, Apply(p, op), id)
  {
    if Attempt(p, op).Success? {
      match op
      case LiveFill(orderId, s, side, fill) => LiveFillKeepsOtherReservations(p, orderId, s, side, fill, id);
      case SettleManual(_, _) => SettlementsKeepOtherReservations(p, op, id);
      case Attest(_, _, _, _) => SettlementsKeepOtherReservations(p, op, id);
      case Reserve(_, _, _) =>
      case Release(_) =>
    }
    hide P.ApplyLiveFill, P.SettleManualOrder, P.SettleLiveOrderAttested;
  }

  lemma {:induction false} HistoryKeepsOtherReservations(p: P.Portfolio, ops: seq<Op>, id: string)
    requires forall op :: op in ops ==> IdOf(op) != id
    ensures ReservedAlike(p, History(p, ops), id)
    decreases |ops|
  {
    if ops != [] {
      HistoryKeepsOtherReservations(p, ops[..|ops| - 1], id);
      OpKeepsOtherReservations(History(p, ops[..|ops| - 1]), ops[|ops| - 1], id);
      hide Apply;
    }
  }

  // The portfolio a pass saves is one the protocol admits from another writer: the reservations of
  // live orders in flight that were never identified are as they were.
  lemma PassKeepsProtected(w: World, evidence: map<string, Evidence>, ids: seq<string>)
    requires w.stored.Loaded? && forall id :: id in w.orders ==> w.orders[id].clientOrderId == id
    requires forall id :: id in ids ==> id in w.identified
    ensures KeepsProtected(w, Loaded(ObserveAll(Begin(w.orders, w.stored), w.orders, evidence, ids).progress.portfolio))
  {
    var begin := Begin(w.orders, w.stored);
    var ops := PassIsHistory(begin, w.orders, evidence, ids);
    hide ObserveAll, History;
    forall id | id in w.minted && Protected(w, id)
      ensures SameReservation(w.stored, Loaded(History(begin.progress.portfolio, ops)), id)
    {
      HistoryKeepsOtherReservations(begin.progress.portfolio, ops, id);
    }
  }

  // ---- The ledger of a pass is a run of the protocol ----

  function MonitorEvents(p: Process, snapshot: Ledger, evidence: map<string, Evidence>, ids: seq<string>): seq<Event>
    decreases |ids|
  {
    if ids == [] then []
    else
      var id := ids[|ids| - 1];
      var rest := MonitorEvents(p, snapshot, evidence, ids[..|ids| - 1]);
      if id in evidence && id in snapshot && Observable(snapshot[id].status)
      then rest + [Monitor(p, id, evidence[id].authoritative)] else rest
  }

  lemma MonitorSaves(cfg: Config, w: World, p: Process, id: string, authoritative: Order)
    requires w.LockedBy(p) && id in w.orders && w.orders[id].clientOrderId == id
    requires IsLiveId(id) && id in w.identified && Observable(w.orders[id].status)
    ensures var v := Step(cfg, w, Monitor(p, id, authoritative));
            && v == w.(orders := w.orders[id := Adopt(w.orders[id], authoritative)], identified := v.identified)
            && w.identified <= v.identified && v.LockedBy(p)
  {
  }

  // The ledger a pass leaves: every observed order adopts what the exchange reported.
  function Adopted(snapshot: Ledger, evidence: map<string, Evidence>, ids: seq<string>): Ledger
    decreases |ids|
  {
    if ids == [] then snapshot
    else
      var id := ids[|ids| - 1];
      var rest := Adopted(snapshot, evidence, ids[..|ids| - 1]);
      if id in evidence && id in snapshot && Observable(snapshot[id].status)
      then rest[id := Adopt(snapshot[id], evidence[id].authoritative)] else rest
  }

  lemma {:induction false} PassAdopts(pass: Pass, snapshot: Ledger, evidence: map<string, Evidence>, ids: seq<string>)
    requires pass.orders == snapshot && forall id :: id in snapshot ==> snapshot[id].clientOrderId == id
    ensures ObserveAll(pass, snapshot, evidence, ids).orders == Adopted(snapshot, evidence, ids)
    decreases |ids|
  {
    if ids != [] {
      PassAdopts(pass, snapshot, evidence, ids[..|ids| - 1]);
      hide BookTrades, ProvenQuantity, ReleaseAllowed;
    }
  }

  lemma {:induction false} OthersKeepTheirRecord(
      snapshot: Ledger, evidence: map<string, Evidence>, ids: seq<string>, id: string)
    requires id !in ids && id in snapshot
    ensures id in Adopted(snapshot, evidence, ids) && Adopted(snapshot, evidence, ids)[id] == snapshot[id]
    decreases |ids|
  {
    if ids != [] {
      assert id !in ids[..|ids| - 1];
      OthersKeepTheirRecord(snapshot, evidence, ids[..|ids| - 1], id);
    }
  }

  lemma {:induction false} AdoptionIsRun(
      cfg: Config, w: World, p: Process, evidence: map<string, Evidence>, ids: seq<string>)
    requires w.LockedBy(p)
    requires forall id :: id in w.orders ==> w.orders[id].clientOrderId == id
    requires forall i, j :: 0 <= i < j < |ids| ==> ids[i] != ids[j]
    requires forall id :: id in ids ==> IsLiveId(id) && id in w.identified
    ensures var v := Run(cfg, w, MonitorEvents(p, w.orders, evidence, ids));
            v == w.(orders := Adopted(w.orders, evidence, ids), identified := v.identified)
                && w.identified <= v.identified && v.LockedBy(p)
    decreases |ids|
  {
    if ids != [] {
      var init, id := ids[..|ids| - 1], ids[|ids| - 1];
      AdoptionIsRun(cfg, w, p, evidence, init);
      var v := Run(cfg, w, MonitorEvents(p, w.orders, evidence, init));
      if id in evidence && id in w.orders && Observable(w.orders[id].status) {
        assert id !in init;
        OthersKeepTheirRecord(w.orders, evidence, init, id);
        RunAppend(cfg, w, MonitorEvents(p, w.orders, evidence, init), Monitor(p, id, evidence[id].authoritative));
        MonitorSaves(cfg, v, p, id, evidence[id].authoritative);
        hide Step, Run;
      }
    }
  }

  lemma PassIsRun(cfg: Config, w: World, p: Process, evidence: map<string, Evidence>, ids: seq<string>)
    requires w.LockedBy(p)
    requires forall id :: id in w.orders ==> w.orders[id].clientOrderId == id
    requires forall i, j :: 0 <= i < j < |ids| ==> ids[i] != ids[j]
    requires forall id :: id in ids ==> IsLiveId(id) && id in w.identified
    ensures Run(cfg, w, MonitorEvents(p, w.orders, evidence, ids)).orders
         == ObserveAll(Begin(w.orders, w.stored), w.orders, evidence, ids).orders
  {
    AdoptionIsRun(cfg, w, p, evidence, ids);
    PassAdopts(Begin(w.orders, w.stored), w.orders, evidence, ids);
    hide ObserveAll, Run;
  }

  // ---- Releases ----

  lemma {:induction false} NothingProvenIff(id: string, snapshot: Ledger, ts: seq<Trade>)
    ensures ProvenQuantity(id, snapshot, ts) >= 0
    ensures ProvenQuantity(id, snapshot, ts) == 0 <==> forall t :: t in ts ==> !ProvenFor(t, snapshot, id)
    decreases |ts|
  {
    if ts != [] {
      NothingProvenIff(id, snapshot, ts[..|ts| - 1]);
      hide ProvenFor;
      assert forall t :: t in ts <==> t in ts[..|ts| - 1] || t == ts[|ts| - 1];
      assert ProvenFor(ts[|ts| - 1], snapshot, id) ==> ts[|ts| - 1].quantity > 0 by {
        ProvenIsPositive(ts[|ts| - 1], snapshot, id);
      }
    }
  }

  lemma ProvenIsPositive(t: Trade, snapshot: Ledger, id: string)
    ensures ProvenFor(t, snapshot, id) ==> t.quantity > 0
  {
  }

  // Booking a fill never ends a reservation.
  lemma {:induction false} BookingKeepsReservations(
      s: Progress, current: Order, snapshot: Ledger, market: Option<Products>, ts: seq<Trade>, id: string)
    ensures var q := BookTrades(s, current, snapshot, market, ts).portfolio;
            q.HasActiveReservation(id) == s.portfolio.HasActiveReservation(id)
            && (id in q.reservations <==> id in s.portfolio.reservations)
    decreases |ts|
  {
    if ts != [] {
      BookingKeepsReservations(s, current, snapshot, market, ts[..|ts| - 1], id);
      var before := BookTrades(s, current, snapshot, market, ts[..|ts| - 1]).portfolio;
      var t := ts[|ts| - 1];
      FillKeepsActive(before, current.clientOrderId, current.symbol, current.side, FillOf(t), id);
      hide ProvenFor, Overdraws, P.ApplyLiveFill;
    }
  }

  lemma FillKeepsActive(p: P.Portfolio, orderId: string, symbol: Symbol, side: Side, fill: P.Fill, id: string)
    ensures P.ApplyLiveFill(p, orderId, symbol, side, fill).Success? ==>
              var q := P.ApplyLiveFill(p, orderId, symbol, side, fill).value;
              q.HasActiveReservation(id) == p.HasActiveReservation(id)
                  && (id in q.reservations <==> id in p.reservations)
  {
    if P.ApplyLiveFill(p, orderId, symbol, side, fill).Success? && fill.executionId.value !in p.applied {
      LiveFillParts(p, orderId, symbol, side, fill);
      ApplyFillKeepsReservations(p, symbol, side, fill.quantity, fill.price, fill.fee);
      hide Mul, P.ApplyFill, P.ApplyLiveFill;
    }
  }

  // The pass ends the reservation of an order it observes exactly when no execution of it is
  // proven and the exchange reports it canceled, rejected, expired, or filled with nothing.
  predicate NoFillReported(a: Order) {
    a.status == Canceled || a.status == OrderStatus.Rejected || a.status == Expired
        || (a.status == Filled && a.filledQuantity <= 0)
  }

  lemma ReleasedIff(pass: Pass, snapshot: Ledger, id: string, ev: Evidence)
    requires id in snapshot && snapshot[id].clientOrderId == id && Observable(snapshot[id].status)
    requires pass.progress.portfolio.HasActiveReservation(id)
    ensures !Observe(pass, snapshot, id, ev).progress.portfolio.HasActiveReservation(id)
       <==> NoFillReported(ev.authoritative) && forall t :: t in ev.executions ==> !ProvenFor(t, snapshot, id)
  {
    BookingKeepsReservations(pass.progress, snapshot[id], snapshot, ev.market, ev.executions, id);
    NothingProvenIff(id, snapshot, ev.executions);
    hide BookTrades, ProvenFor, ProvenQuantity;
  }

  // The module promises to release only in a proven final state without a fill. A final status
  // with a filled quantity still releases, exactly when no execution was read or correlated, as
  // after a failed read of the account's trades.
  lemma ReleasedDespiteFillIff(pass: Pass, snapshot: Ledger, id: string, ev: Evidence)
    requires id in snapshot && snapshot[id].clientOrderId == id && Observable(snapshot[id].status)
    requires pass.progress.portfolio.HasActiveReservation(id) && ev.authoritative.filledQuantity > 0
    ensures !Observe(pass, snapshot, id, ev).progress.portfolio.HasActiveReservation(id)
       <==> ev.authoritative.status in {Canceled, OrderStatus.Rejected, Expired}
            && forall t :: t in ev.executions ==> !ProvenFor(t, snapshot, id)
    ensures exists a: Order :: a.filledQuantity > 0
              && !Observe(pass, snapshot, id, Evidence(a, [], None)).progress.portfolio.HasActiveReservation(id)
  {
    ReleasedIff(pass, snapshot, id, ev);
    var a := ev.authoritative.(status := Canceled);
    ReleasedIff(pass, snapshot, id, Evidence(a, [], None));
    hide Observe, ProvenFor;
    assert a.filledQuantity > 0;
  }

  // ---- A pass that died between its two writes ----

  // No execution was booked under the id.
  ghost predicate NothingNewUnder(p: P.Portfolio, q: P.Portfolio, id: string) {
    forall e :: e in q.applied ==> (e in p.applied && q.applied[e] == p.applied[e]) || q.applied[e].orderId != id
  }

  lemma {:induction false} BookTradesUnderOwnId(
      s: Progress, current: Order, snapshot: Ledger, market: Option<Products>, ts: seq<Trade>, id: string)
    requires id != current.clientOrderId
    ensures NothingNewUnder(s.portfolio, BookTrades(s, current, snapshot, market, ts).portfolio, id)
    decreases |ts|
  {
    if ts != [] {
      BookTradesUnderOwnId(s, current, snapshot, market, ts[..|ts| - 1], id);
      var before := BookTrades(s, current, snapshot, market, ts[..|ts| - 1]).portfolio;
      var t := ts[|ts| - 1];
      FillBooksUnder(before, current.clientOrderId, current.symbol, current.side, FillOf(t));
      hide ProvenFor, Overdraws, P.ApplyLiveFill;
    }
  }

  lemma FillBooksUnder(p: P.Portfolio, orderId: string, symbol: Symbol, side: Side, fill: P.Fill)
    ensures P.ApplyLiveFill(p, orderId, symbol, side, fill).Success? ==>
              var q := P.ApplyLiveFill(p, orderId, symbol, side, fill).value;
              forall e :: e in q.applied ==>
                (e in p.applied && q.applied[e] == p.applied[e]) || q.applied[e].orderId == orderId
  {
    if P.ApplyLiveFill(p, orderId, symbol, side, fill).Success? && fill.executionId.value !in p.applied {
      LiveFillFrame(p, orderId, symbol, side, fill);
      ApplyFillKeepsReservations(p, symbol, side, fill.quantity, fill.price, fill.fee);
      hide P.ApplyLiveFill, P.ApplyFill;
    }
  }

  // The ledger is written before the portfolio. If the pass dies in between after adopting a
  // final state, no later pass changes the record, books an execution of the order or releases
  // its reservation, whatever it reads.
  lemma {:induction false} FinalOrdersAreNotRevisited(
      pass: Pass, snapshot: Ledger, evidence: map<string, Evidence>, ids: seq<string>, id: string)
    requires forall i :: i in snapshot ==> snapshot[i].clientOrderId == i
    requires id in snapshot && id in pass.orders && !Observable(snapshot[id].status)
    ensures var end := ObserveAll(pass, snapshot, evidence, ids);
            && id in end.orders && end.orders[id] == pass.orders[id]
            && end.progress.portfolio.HasActiveReservation(id) == pass.progress.portfolio.HasActiveReservation(id)
            && NothingNewUnder(pass.progress.portfolio, end.progress.portfolio, id)
    decreases |ids|
  {
    if ids != [] {
      FinalOrdersAreNotRevisited(pass, snapshot, evidence, ids[..|ids| - 1], id);
      var rest := ObserveAll(pass, snapshot, evidence, ids[..|ids| - 1]);
      var other := ids[|ids| - 1];
      if other in evidence && other in snapshot && Observable(snapshot[other].status) {
        BookTradesUnderOwnId(rest.progress, snapshot[other], snapshot, evidence[other].market,
            evidence[other].executions, id);
        BookingKeepsReservations(rest.progress, snapshot[other], snapshot, evidence[other].market,
            evidence[other].executions, id);
        hide BookTrades, ProvenQuantity;
      }
    }
  }
}
