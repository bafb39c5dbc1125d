/**
 The manual command line loads the managed portfolio when it starts, works on that copy and saves
 it without loading again (src/cli/manual-cmd.ts). A save can therefore undo what others wrote
 since. The lemmas say exactly what such a save keeps: a reservation or a settlement survives if
 and only if the copy already held it. Under that condition the claims about reserved funds and
 about bookings extend to runs with such writers.
 */
module StaleWrites {
  import opened Wrappers
  import opened Money
  import opened Orders
  import opened ManagedStore
  import opened SubmissionRules
  import opened PortfolioLaws
  import opened AccountingHistory
  import opened MonitorLaws
  import opened OneInFlight
  import S = SubmissionProtocol
  import M = ManualHistory
  import P = Portfolio

  // What a writer leaves that did its operations on a copy.
  function StaleSave(basis: P.Portfolio, ops: seq<Op>): Stored {
    Loaded(History(basis, ops))
  }

  // ---- Reservations ----

  // The copy holds the reservations of the protected orders as they are stored now.
  ghost predicate UpToDate(w: S.World, basis: P.Portfolio) {
    forall id :: id in w.minted && S.Protected(w, id) && w.stored.Loaded? && id in w.stored.portfolio.reservations
      ==> id in basis.reservations && basis.reservations[id] == w.stored.portfolio.reservations[id]
  }

  // The operations are for other ids than the live orders of the protocol.
  ghost predicate OwnIds(w: S.World, ops: seq<Op>) {
    forall op :: op in ops ==> IdOf(op) !in w.minted
  }

  lemma StaleSaveKeepsProtectedIff(w: S.World, basis: P.Portfolio, ops: seq<Op>)
    requires OwnIds(w, ops)
    ensures S.KeepsProtected(w, StaleSave(basis, ops)) <==> UpToDate(w, basis)
  {
    forall id | id in w.minted ensures ReservedAlike(basis, History(basis, ops), id) {
      HistoryKeepsOtherReservations(basis, ops, id);
    }
    hide History, S.Protected;
  }

  // ---- The submission protocol with such writers ----

  datatype Event =
    | Protocol(event: S.Event)
    | Stale(process: S.Process, basis: P.Portfolio, ops: seq<Op>)

  function Step(cfg: Config, w: S.World, e: Event): S.World {
    match e
    case Protocol(event) => S.Step(cfg, w, event)
    case Stale(p, basis, ops) => if w.LockedBy(p) then w.(stored := StaleSave(basis, ops)) else w
  }

  function Run(cfg: Config, w: S.World, es: seq<Event>): S.World
    decreases |es|
  {
    if es == [] then w else Step(cfg, Run(cfg, w, es[..|es| - 1]), es[|es| - 1])
  }

  // The order of a purchase whose outcome is open is called, not rejected and protected.
  ghost predicate IsOpenCall(w: S.World, id: string) {
    id in w.calls && id in w.minted && id !in w.rejected && S.Protected(w, id)
  }

  // A stale save leaves the funds of every open call in place if and only if the copy already
  // held the exact cost of each.
  lemma StaleSaveKeepsFundsIff(cfg: Config, w: S.World, p: S.Process, basis: P.Portfolio, ops: seq<Op>)
    requires w.LockedBy(p) && OwnIds(w, ops) && forall id :: id in w.minted ==> w.minted[id].order.clientOrderId == id
    ensures OpenFunds(cfg, Step(cfg, w, Stale(p, basis, ops)))
       <==> forall id :: IsOpenCall(w, id) ==> CostReserved(cfg, Loaded(basis), w.minted[id].order)
  {
    var v := Step(cfg, w, Stale(p, basis, ops));
    forall id | id in w.minted
      ensures CostReserved(cfg, v.stored, w.minted[id].order) <==> CostReserved(cfg, Loaded(basis), w.minted[id].order)
    {
      HistoryKeepsOtherReservations(basis, ops, id);
      hide History, QuoteCost;
    }
    hide CostReserved, History;
  }

  ghost predicate WritesUpToDate(cfg: Config, w: S.World, es: seq<Event>) {
    forall k :: 0 <= k < |es| && es[k].Stale? ==>
      UpToDate(Run(cfg, w, es[..k]), es[k].basis) && OwnIds(Run(cfg, w, es[..k]), es[k].ops)
  }

  // An up-to-date save is one of the writes the protocol admits.
  function AsWrite(e: Event): S.Event {
    match e
    case Protocol(event) => event
    case Stale(p, basis, ops) => S.ManagedWrite(p, StaleSave(basis, ops))
  }

  function AsProtocol(es: seq<Event>): seq<S.Event>
    decreases |es|
  {
    if es == [] then [] else AsProtocol(es[..|es| - 1]) + [AsWrite(es[|es| - 1])]
  }

  lemma {:induction false} RunIsProtocolRun(cfg: Config, w: S.World, es: seq<Event>)
    requires WritesUpToDate(cfg, w, es)
    ensures Run(cfg, w, es) == S.Run(cfg, w, AsProtocol(es))
    decreases |es|
  {
    if es != [] {
      var init, e := es[..|es| - 1], es[|es| - 1];
      UpToDateBefore(cfg, w, es);
      hide WritesUpToDate;
      RunIsProtocolRun(cfg, w, init);
      var v := Run(cfg, w, init);
      StepIsWrite(cfg, v, e);
      hide Step, S.Step, AsWrite;
      S.RunAppend(cfg, w, AsProtocol(init), AsWrite(e));
    }
  }

  lemma UpToDateBefore(cfg: Config, w: S.World, es: seq<Event>)
    requires es != [] && WritesUpToDate(cfg, w, es)
    ensures var init, e := es[..|es| - 1], es[|es| - 1];
            && WritesUpToDate(cfg, w, init)
            && (e.Stale? ==> UpToDate(Run(cfg, w, init), e.basis) && OwnIds(Run(cfg, w, init), e.ops))
  {
    var init := es[..|es| - 1];
    hide UpToDate, OwnIds, Run;
    assert forall k :: 0 <= k < |init| ==> init[..k] == es[..k] && init[k] == es[k];
  }

  lemma StepIsWrite(cfg: Config, w: S.World, e: Event)
    requires e.Stale? ==> UpToDate(w, e.basis) && OwnIds(w, e.ops)
    ensures Step(cfg, w, e) == S.Step(cfg, w, AsWrite(e))
  {
    if e.Stale? { StaleSaveKeepsProtectedIff(w, e.basis, e.ops); }
    hide UpToDate, OwnIds, StaleSave, S.KeepsProtected;
  }

  // The claim about reserved funds with writers that do not load again, as long as each save is
  // made from a copy that holds the reservations of the orders in flight.
  lemma FundsStayReservedUnderStaleSaves(cfg: Config, w: S.World, es: seq<Event>)
    requires S.Start(w) && AtMostOneInFlight(w.orders) && Disciplined(cfg, w, AsProtocol(es))
        && WritesUpToDate(cfg, w, es)
    ensures OpenFunds(cfg, Run(cfg, w, es)) && AtMostOneInFlight(Run(cfg, w, es).orders)
  {
    RunIsProtocolRun(cfg, w, es);
    FundsStayReserved(cfg, w, AsProtocol(es));
    OneInFlightAlways(cfg, w, AsProtocol(es));
  }

  // A copy loaded before the reservation of a live purchase takes it back, and hands the same
  // quote to the proposal it saves.
  lemma ReservationIsLost()
    ensures exists basis: P.Portfolio, stored: P.Portfolio ::
              && P.ReserveOrder(basis, "live-1", "CAD", SCALE) == Success(stored) && Active(Loaded(stored), "live-1")
              && var ops := [Reserve("manual-1", "CAD", SCALE)];
                 && Active(StaleSave(basis, ops), "manual-1") && !Active(StaleSave(basis, ops), "live-1")
                 && !P.ReserveOrder(stored, "manual-1", "CAD", SCALE).Success?
  {
    var basis := P.EMPTY.(cash := map["CAD" := SCALE]);
    var stored := P.ReserveOrder(basis, "live-1", "CAD", SCALE).value;
    var op := Reserve("manual-1", "CAD", SCALE);
    assert [op][..0] == [] && History(basis, []) == basis;
    assert History(basis, [op]) == Apply(basis, op);
    assert P.ReserveOrder(basis, "live-1", "CAD", SCALE) == Success(stored);
  }

  // ---- Settlements ----

  predicate SettledAlike(p: P.Portfolio, q: P.Portfolio, id: string) {
    && (id in p.settlements <==> id in q.settlements)
    && (id in p.settlements ==> q.settlements[id] == p.settlements[id])
  }

  lemma OpSettlesAlike(p: P.Portfolio, op: Op, id: string)
    requires op.SettleManual? && op.id == id ==> id in p.settlements
    ensures SettledAlike(p, Apply(p, op), id)
  {
    if !op.SettleManual? {
      M.OtherOpsKeepSettlements(p, op);
    } else if Attempt(p, op).Success? && op.id !in p.settlements {
      var s := op.settlement;
      SettledParts(p, op.id, s);
      SettleReservedFrame(p, op.id, s.symbol, s.side, s.quantity, s.price, s.fee);
      hide P.SettleReserved, P.SettleManualOrder;
    }
  }

  lemma {:induction false} HistorySettlesAlike(p: P.Portfolio, ops: seq<Op>, id: string)
    requires id in p.settlements || forall op :: op in ops ==> !(op.SettleManual? && op.id == id)
    ensures SettledAlike(p, History(p, ops), id)
    decreases |ops|
  {
    if ops != [] {
      HistorySettlesAlike(p, ops[..|ops| - 1], id);
      OpSettlesAlike(History(p, ops[..|ops| - 1]), ops[|ops| - 1], id);
      hide Apply;
    }
  }

  // A booked settlement survives a stale save of other work if and only if the copy held it.
  lemma StaleSaveKeepsSettlementIff(stored: P.Portfolio, basis: P.Portfolio, ops: seq<Op>, id: string)
    requires id in stored.settlements && forall op :: op in ops ==> !(op.SettleManual? && op.id == id)
    ensures SettledAlike(stored, History(basis, ops), id) <==> SettledAlike(stored, basis, id)
  {
    HistorySettlesAlike(basis, ops, id);
    hide History;
  }

  // A copy loaded before a sale was settled takes the settlement and its proceeds back.
  lemma SettlementIsLost()
    ensures exists basis: P.Portfolio, stored: P.Portfolio, s: P.Settlement ::
              && P.SettleManualOrder(basis, "m1", s) == Success(stored)
              && "m1" in stored.settlements && stored.Cash("CAD") == SCALE
              && var saved := History(basis, [Reserve("m2", "CAD", SCALE)]);
                 "m1" !in saved.settlements && saved.Cash("CAD") == 0
  {
    var btc := Symbol("BTC", "CAD");
    var basis := P.EMPTY.(cash := map["CAD" := 0], positions := map[btc := P.Position(SCALE, 0, 0, None)]);
    var s := P.Settlement(Some("7"), btc, Sell, SCALE, SCALE, 0, P.ExchangeValidated);
    assert Mul(SCALE, SCALE) == SCALE;
    var stored := P.SettleManualOrder(basis, "m1", s).value;
    var op := Reserve("m2", "CAD", SCALE);
    assert [op][..0] == [] && History(basis, []) == basis;
    assert History(basis, [op]) == Apply(basis, op);
    assert P.SettleManualOrder(basis, "m1", s) == Success(stored);
  }

  datatype BridgeEvent =
    | Bridge(event: M.Event)
    | StaleBridge(basis: P.Portfolio, ops: seq<Op>)

  ghost function Next(w: M.World, e: BridgeEvent): M.World {
    match e
    case Bridge(event) => M.Next(w, event)
    case StaleBridge(basis, ops) => w.(books := w.books.(portfolio := History(basis, ops)))
  }

  ghost function BridgeRun(w: M.World, es: seq<BridgeEvent>): M.World
    decreases |es|
  {
    if es == [] then w else Next(BridgeRun(w, es[..|es| - 1]), es[|es| - 1])
  }

  // A booking stays in every history of the bridge and of stale saves whose copies held it.
  lemma {:induction false} BookedOnceUnderStaleSaves(w: M.World, es: seq<BridgeEvent>, id: string)
    requires M.Keyed(w) && id in w.books.portfolio.settlements
    requires forall k :: 0 <= k < |es| && es[k].StaleBridge? ==> SettledAlike(w.books.portfolio, es[k].basis, id)
    ensures M.Keyed(BridgeRun(w, es)) && SettledAlike(w.books.portfolio, BridgeRun(w, es).books.portfolio, id)
    decreases |es|
  {
    if es != [] {
      var init, e := es[..|es| - 1], es[|es| - 1];
      BookedOnceUnderStaleSaves(w, init, id);
      var v := BridgeRun(w, init);
      match e {
        case Bridge(event) =>
          hide M.Next, M.Keyed;
          M.NextIsKeyed(v, event);
          M.NextExtends(v, event);
        case StaleBridge(basis, ops) =>
          HistorySettlesAlike(basis, ops, id);
          assert M.Keyed(v) ==> M.Keyed(Next(v, e));
          hide M.Keyed, History;
      }
    }
  }
}
