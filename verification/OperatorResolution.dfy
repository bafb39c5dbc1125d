/**
 The locked steps of the two operator commands (src/cli/resolve-created-order-cmd.ts,
 src/cli/resolve-live-order-cmd.ts). The second writes two files, the portfolio and then the
 ledger. What happens when something comes between the two writes is the matter of
 `ResolutionHistory`.
 */
module OperatorResolution {
  import opened Wrappers
  import opened Money
  import opened Orders
  import opened ManagedStore
  import opened ObserverRules
  import opened StateStores
  import opened SubmissionProtocol
  import P = Portfolio

  // What the operator saw and confirmed before the lock was taken.
  datatype Attested = Attested(initial: Order, latest: Order, orderId: string, fee: Money, feeCurrency: FeeCurrency)

  predicate AccountedByExecution(p: P.Portfolio, id: string) {
    exists e :: e in p.applied && p.applied[e].orderId == id
  }

  function Attestable(stored: Stored): P.Portfolio {
    if stored.Loaded? then stored.portfolio else P.EMPTY
  }

  // The ledger and the portfolio the command leaves when it is not interrupted.
  function Attestation(orders: Ledger, stored: Stored, id: string, a: Attested): Option<(Ledger, P.Portfolio)> {
    if id !in orders || !CanAttest(orders[id], a.initial, a.latest, a.orderId) || stored.Corrupt? then None
    else
      var p := Attestable(stored);
      if id !in p.attestations && AccountedByExecution(p, id) then None
      else
        var booked := AttestationOf(orders[id], a.latest, a.orderId, a.fee);
        var settled := P.SettleLiveOrderAttested(p, id, orders[id].quantity, booked, a.feeCurrency);
        if settled.Failure? then None
        else
          var filled := ObserverRules.Attested(orders[id], a.latest, a.fee).(feeCurrency := a.feeCurrency);
          Some((orders[id := filled], settled.value))
  }

  class OperatorCommands {
    const orders: OrderStore
    const live: ManagedStateStore

    constructor (orders: OrderStore, live: ManagedStateStore)
      ensures this.orders == orders && this.live == live
    {
      this.orders, this.live := orders, live;
    }

    // resolve-created-order: ATTACH or ABANDON one unidentified order.
    method ResolveCreated(id: string, initial: Order, mode: Mode, exchange: Option<Order>) returns (applied: bool)
      requires id in orders.orders ==> orders.orders[id].clientOrderId == id
      modifies orders
      ensures applied <==>
                && id in old(orders.orders)
                && ObserverRules.ResolveCreated(old(orders.orders)[id], initial, mode, exchange).Some?
      ensures !applied ==> orders.orders == old(orders.orders)
      ensures applied ==>
                var resolved := ObserverRules.ResolveCreated(old(orders.orders)[id], initial, mode, exchange).value;
                orders.orders == old(orders.orders)[id := resolved]
      // It leaves the ledger that the same step of the submission protocol leaves.
      ensures forall cfg, w: World :: w.orders == old(orders.orders) && w.lockFile.None?
                ==> Step(cfg, w, Resolve(id, initial, mode, exchange)).orders == orders.orders
    {
      if id !in orders.orders { return false; }
      var current := orders.orders[id];
      if !IsUnidentified(current) || !UnchangedSince(current, initial) { return false; }
      var resolved: Order;
      match mode {
        case AttachMode(asserted) =>
          if exchange.None? || !SameIdentity(exchange.value, current, Some(asserted)) { return false; }
          resolved := Adopt(current, exchange.value).(resolution := Some(Attach));
        case AbandonMode =>
          resolved := current.(status := Abandoned, resolution := Some(Abandon));
      }
      applied := orders.Save(resolved, true);
    }

    // resolve-live-order: the attested aggregate, then the FILLED record. `dies` is a crash
    // between the two saves.
    method ResolveLive(id: string, a: Attested, dies: bool) returns (applied: bool)
      requires id in orders.orders ==> orders.orders[id].clientOrderId == id
      modifies orders, live
      ensures applied <==> Attestation(old(orders.orders), old(live.stored), id, a).Some?
      ensures !applied ==> orders.orders == old(orders.orders) && live.stored == old(live.stored)
      ensures applied ==>
                var (ledger, portfolio) := Attestation(old(orders.orders), old(live.stored), id, a).value;
                live.stored == Loaded(portfolio) && orders.orders == if dies then old(orders.orders) else ledger
    {
      if id !in orders.orders || !CanAttest(orders.orders[id], a.initial, a.latest, a.orderId) || live.stored.Corrupt? {
        return false;
      }
      var current := orders.orders[id];
      var p := Attestable(live.stored);
      if id !in p.attestations && AccountedByExecution(p, id) { return false; }
      var settled := P.SettleLiveOrderAttested(p, id, current.quantity,
          AttestationOf(current, a.latest, a.orderId, a.fee), a.feeCurrency);
      if settled.Failure? { return false; }
      live.Save(settled.value);
      applied := true;
      if !dies {
        var saved := orders.Save(ObserverRules.Attested(current, a.latest, a.fee).(feeCurrency := a.feeCurrency), true);
      }
    }
  }

  lemma SettledIsRecorded(p: P.Portfolio, id: string, quantity: Money, a: P.Attestation, f: FeeCurrency)
    requires P.SettleLiveOrderAttested(p, id, quantity, a, f).Success?
    ensures var q := P.SettleLiveOrderAttested(p, id, quantity, a, f).value;
            && id in q.attestations && q.attestations[id] == a
            && P.SettleLiveOrderAttested(q, id, quantity, a, f) == Success(q)
  {
    hide P.SettleReserved;
  }

  // The FILLED record has the identity the command checks.
  lemma FilledKeepsIdentity(current: Order, a: Attested)
    requires CanAttest(current, a.initial, a.latest, a.orderId)
    ensures var filled := ObserverRules.Attested(current, a.latest, a.fee).(feeCurrency := a.feeCurrency);
            && CanAttest(filled, a.initial, a.latest, a.orderId)
            && AttestationOf(filled, a.latest, a.orderId, a.fee) == AttestationOf(current, a.latest, a.orderId, a.fee)
            && ObserverRules.Attested(filled, a.latest, a.fee).(feeCurrency := a.feeCurrency) == filled
            && filled.quantity == current.quantity
  {
    hide SameExternalOrderId;
  }

  // A half-done resolution can be completed with other evidence exactly when that evidence books
  // the very same aggregate: a different one is refused and the order stays as the crash left it.
  lemma RetryWithOtherEvidenceIff(orders: Ledger, stored: Stored, id: string, a: Attested, b: Attested)
    requires Attestation(orders, stored, id, a).Some? && CanAttest(orders[id], b.initial, b.latest, b.orderId)
    ensures var portfolio := Attestation(orders, stored, id, a).value.1;
            Attestation(orders, Loaded(portfolio), id, b).Some?
            <==> && AttestationOf(orders[id], b.latest, b.orderId, b.fee)
                      == AttestationOf(orders[id], a.latest, a.orderId, a.fee)
                 && (b.fee != 0 ==> b.feeCurrency == QuoteFee)
  {
    var booked := AttestationOf(orders[id], a.latest, a.orderId, a.fee);
    SettledIsRecorded(Attestable(stored), id, orders[id].quantity, booked, a.feeCurrency);
    hide P.SettleReserved, CanAttest;
  }
}
