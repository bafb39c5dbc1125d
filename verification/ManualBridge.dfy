/**
 The manual-execution bridge (src/manual/bridge.ts). Every operation writes the portfolio and
 then the intent store, two files without a common transaction, and `reconcile` is the recovery
 pass over both. Each operation is specified by the two writes it makes, so a crash between them
 is the first write alone; the class below performs them in that order.
 */
module ManualBridge {
  import opened Wrappers
  import opened Money
  import opened Orders
  import opened ManualValidation
  import opened PortfolioLaws
  import P = Portfolio

  type Intents = map<string, Intent>

  datatype Books = Books(portfolio: P.Portfolio, intents: Intents)

  // The two writes of an operation: the portfolio, then one intent.
  datatype Effect = Effect(portfolio: P.Portfolio, intent: Intent)

  function Done(b: Books, e: Effect): Books {
    Books(e.portfolio, b.intents[e.intent.id := e.intent])
  }

  // The crash window: the portfolio is written, the intent is not.
  function Half(b: Books, e: Effect): Books {
    b.(portfolio := e.portfolio)
  }

  // A risk-approved recommendation.
  datatype Proposal = Proposal(
    symbol: Symbol,
    side: Side,
    quantity: Money,
    requiredBalance: Money,
    limitPrice: Option<Money>,
    nowMs: int)

  // ---- The checks a load of the intent store makes (src/manual/ManualIntentStore.ts) ----

  predicate Loadable(i: Intent) {
    && i.quantity > 0
    && (i.limitPrice.Some? ==> i.limitPrice.value > 0)
    && (i.evidence.Some? && i.evidence.value.filledQuantity.Some? ==> i.evidence.value.filledQuantity.value >= 0)
    && (i.reservationAmount.Some? ==> i.reservationAmount.value > 0)
  }

  predicate Readable(intents: Intents) {
    forall id :: id in intents ==> Loadable(intents[id])
  }

  // ---- The operations ----

  function ProposeEffect(b: Books, id: string, r: Proposal): Option<Effect> {
    if !Readable(b.intents) then None
    else
      var intent := Intent(id, Proposed, r.symbol, r.side, if r.limitPrice.Some? then Limit else Market,
                           r.quantity, r.limitPrice, None, r.nowMs, None, None);
      if r.side == Buy then
        var reserved := P.ReserveOrder(b.portfolio, id, r.symbol.quote, r.requiredBalance);
        if reserved.Failure? then None
        else Some(Effect(reserved.value,
                         intent.(reservationCurrency := Some(r.symbol.quote),
                             reservationAmount := Some(r.requiredBalance))))
      else if r.quantity > b.portfolio.Held(r.symbol) then None
      else Some(Effect(b.portfolio, intent))
  }

  function ConfirmEffect(b: Books, id: string): Option<Effect> {
    if !Readable(b.intents) || id !in b.intents || b.intents[id].status != Proposed then None
    else Some(Effect(b.portfolio, b.intents[id].(status := Confirmed)))
  }

  function EvidenceEffect(b: Books, id: string, e: Evidence): Option<Effect> {
    if !Readable(b.intents) || id !in b.intents then None
    else
      var intent := b.intents[id];
      if IsTerminalIntent(intent.status) || intent.status == Proposed then None
      else if intent.evidence.Some? && ProgressConflict(intent.evidence.value, e) then None
      else Some(Effect(b.portfolio, intent.(evidence := Some(e), status := EvidenceRecorded)))
  }

  predicate CanSettle(i: Intent) {
    (i.status == EvidenceRecorded || i.status == PendingFill || i.status == ReconciliationRequired) && i.evidence.Some?
  }

  // `settle` after its await: `intent` is what it read before.
  function SettleEffect(p: P.Portfolio, intent: Intent, mode: P.SettlementMode, read: Option<Order>): Effect
    requires intent.evidence.Some?
  {
    var e := intent.evidence.value;
    match ValidateAgainstExchange(intent, e, read)
    case Conflicting => Effect(p, intent.(status := Ambiguous))
    case Unreadable => Effect(p, intent.(status := ReconciliationRequired))
    case NotFinal => Effect(p, intent.(status := PendingFill))
    case Authoritative(a) =>
      if a.filledQuantity <= 0 then Effect(P.ReleaseOrderReservation(p, intent.id), intent.(status := CanceledIntent))
      else if a.averagePrice.None? || a.averagePrice.value <= 0 then Effect(p, intent.(status := Ambiguous))
      else if a.fee <= 0 || a.feeCurrency != QuoteFee then Effect(p, intent.(status := ReconciliationRequired))
      else
        var settled := P.SettleManualOrder(p, intent.id, Booking(intent, e, mode, a));
        if settled.Failure? then Effect(p, intent.(status := Ambiguous))
        else Effect(settled.value, intent.(status := AccountedBy(mode)))
  }

  function Booking(intent: Intent, e: Evidence, mode: P.SettlementMode, a: Order): P.Settlement
    requires a.averagePrice.Some?
  {
    P.Settlement(e.orderId, intent.symbol, intent.side, a.filledQuantity, a.averagePrice.value, a.fee, mode)
  }

  function CancelEffect(b: Books, id: string): Option<Effect> {
    if !Readable(b.intents) || id !in b.intents then None
    else
      var intent := b.intents[id];
      if intent.status != Proposed && intent.status != Confirmed && intent.status != EvidenceRecorded then None
      else if ReportsFill(intent.evidence) then None
      else Some(Effect(P.ReleaseOrderReservation(b.portfolio, id), intent.(status := CanceledIntent)))
  }

  // ---- Reconciliation ----

  datatype Issue =
    | Orphan(id: string)
    | AccountedWithoutSettlement(id: string)
    | NeedsReconciliation(id: string)
    | IsAmbiguous(id: string)
    | MissingReservation(id: string)
    | StatusFinalized(id: string)      // fixed
    | LeakReleased(id: string)         // fixed

  predicate InProgress(s: IntentStatus) {
    s == Proposed || s == Confirmed || s == EvidenceRecorded || s == PendingFill
  }

  predicate Unfinalized(b: Books, id: string) {
    id in b.intents && id in b.portfolio.settlements
        && b.intents[id].status != AccountedBy(b.portfolio.settlements[id].mode)
  }

  predicate Leaked(b: Books, id: string) {
    && id in b.intents && id !in b.portfolio.settlements
    && (b.intents[id].status == CanceledIntent || b.intents[id].status == VoidIntent)
    && b.portfolio.HasActiveReservation(id) && !ReportsFill(b.intents[id].evidence)
  }

  predicate LacksReservation(b: Books, id: string)
    requires id in b.intents
  {
    && InProgress(b.intents[id].status) && b.intents[id].side == Buy
    && b.intents[id].reservationCurrency.Some? && b.intents[id].reservationAmount.Some?
    && !b.portfolio.HasActiveReservation(id)
  }

  // What one intent contributes to the report.
  function Findings(b: Books, id: string): set<Issue>
    requires id in b.intents
  {
    var status := b.intents[id].status;
    if id in b.portfolio.settlements then if Unfinalized(b, id) then {StatusFinalized(id)} else {}
    else if IsAccounted(status) then {AccountedWithoutSettlement(id)}
    else if status == ReconciliationRequired then {NeedsReconciliation(id)}
    else if status == Ambiguous then {IsAmbiguous(id)}
    else if Leaked(b, id) then {LeakReleased(id)}
    else if LacksReservation(b, id) then {MissingReservation(id)}
    else {}
  }

  predicate IsFix(i: Issue) {
    i.StatusFinalized? || i.LeakReleased?
  }

  ghost function Report(b: Books): set<Issue> {
    (set id | id in b.portfolio.reservations && id !in b.intents :: Orphan(id))
    + FindingsOf(b, b.intents.Keys)
  }

  ghost predicate SafeReport(issues: set<Issue>) {
    forall i :: i in issues ==> IsFix(i)
  }

  function Finalized(b: Books, id: string): Intent
    requires id in b.intents
  {
    if Unfinalized(b, id) then b.intents[id].(status := AccountedBy(b.portfolio.settlements[id].mode))
    else b.intents[id]
  }

  function Repaired(r: P.Reservation, leaked: bool): P.Reservation {
    if leaked then r.(remaining := 0, active := false) else r
  }

  // The books a pass leaves. Cash, positions and the accounting ledgers are not its to change.
  ghost predicate Reconciled(b: Books, c: Books) {
    && c.intents == (map id | id in b.intents :: Finalized(b, id))
    && c.portfolio.reservations
         == (map id | id in b.portfolio.reservations :: Repaired(b.portfolio.reservations[id], Leaked(b, id)))
    && OnlyReleases(b, c)
  }

  // The reserved pool stays the sum of the active reservations, and nothing moves without a leak.
  ghost predicate OnlyReleases(b: Books, c: Books) {
    && c.portfolio == b.portfolio.(reserved := c.portfolio.reserved, reservations := c.portfolio.reservations)
    && (Pooled(b.portfolio) ==> Pooled(c.portfolio))
    && ((forall id :: id in b.intents ==> !Leaked(b, id)) ==> c.portfolio == b.portfolio)
  }

  // ---- The pass, one intent after the other ----

  function RepairOne(b: Books, id: string): Books
    requires id in b.intents
  {
    if Unfinalized(b, id) then b.(intents := b.intents[id := Finalized(b, id)])
    else if Leaked(b, id) then b.(portfolio := P.ReleaseOrderReservation(b.portfolio, id))
    else b
  }

  ghost function FindingsOf(b: Books, ids: set<string>): set<Issue>
    requires ids <= b.intents.Keys
  {
    set id, i | id in ids && i in Findings(b, id) :: i
  }

  // The intents of `left` are still to be visited.
  ghost predicate PassedOver(b: Books, c: Books, left: set<string>) {
    && c.intents.Keys == b.intents.Keys
    && (forall id :: id in c.intents ==> c.intents[id] == if id in left then b.intents[id] else Finalized(b, id))
    && c.portfolio.reservations.Keys == b.portfolio.reservations.Keys
    && (forall id :: id in c.portfolio.reservations ==>
          c.portfolio.reservations[id] == Repaired(b.portfolio.reservations[id], id !in left && Leaked(b, id)))
    && OnlyReleases(b, c)
  }

  lemma PassBegins(b: Books)
    ensures PassedOver(b, b, b.intents.Keys)
    ensures FindingsOf(b, {}) == {}
  {
  }

  // What the pass does to an intent depends only on what that intent and its reservation were.
  ghost predicate SameView(b: Books, c: Books, id: string) {
    && id in b.intents && id in c.intents && c.intents[id] == b.intents[id]
    && c.portfolio.settlements == b.portfolio.settlements
    && (id in c.portfolio.reservations <==> id in b.portfolio.reservations)
    && (id in b.portfolio.reservations ==> c.portfolio.reservations[id] == b.portfolio.reservations[id])
  }

  lemma SameViewSameRepair(b: Books, c: Books, id: string)
    requires SameView(b, c, id)
    ensures Unfinalized(c, id) == Unfinalized(b, id) && Leaked(c, id) == Leaked(b, id)
    ensures Finalized(c, id) == Finalized(b, id) && Findings(c, id) == Findings(b, id)
  {
  }

  lemma RepairOneRepairs(c: Books, id: string)
    requires id in c.intents
    ensures var d := RepairOne(c, id);
            && d.intents == c.intents[id := Finalized(c, id)]
            && d.portfolio == c.portfolio.(reserved := d.portfolio.reserved, reservations := d.portfolio.reservations)
            && (Pooled(c.portfolio) ==> Pooled(d.portfolio)) && (!Leaked(c, id) ==> d.portfolio == c.portfolio)
            && d.portfolio.reservations.Keys == c.portfolio.reservations.Keys
            && forall i :: i in c.portfolio.reservations ==>
                 d.portfolio.reservations[i] == Repaired(c.portfolio.reservations[i], i == id && Leaked(c, id))
  {
    assert c.intents[id := c.intents[id]] == c.intents;
    if Pooled(c.portfolio) { ReleaseOrderReservationKeeps(c.portfolio, id, ""); }
    hide Pooled;
  }

  lemma PassesOver(b: Books, c: Books, left: set<string>, id: string)
    requires PassedOver(b, c, left) && id in left && left <= b.intents.Keys
    ensures Findings(c, id) == Findings(b, id)
    ensures PassedOver(b, RepairOne(c, id), left - {id})
  {
    assert SameView(b, c, id);
    SameViewSameRepair(b, c, id);
    RepairOneRepairs(c, id);
    var d := RepairOne(c, id);
    hide RepairOne, Findings, Leaked, Unfinalized, Finalized, Pooled;
    assert OnlyReleases(b, d);
    hide OnlyReleases;
  }

  lemma FindingsGrow(b: Books, ids: set<string>, id: string)
    requires ids <= b.intents.Keys && id in b.intents
    ensures FindingsOf(b, ids + {id}) == FindingsOf(b, ids) + Findings(b, id)
  {
    hide Findings;
  }

  lemma FoundSoFar(b: Books, left: set<string>, id: string)
    requires left <= b.intents.Keys && id in left
    ensures FindingsOf(b, b.intents.Keys - (left - {id})) == FindingsOf(b, b.intents.Keys - left) + Findings(b, id)
  {
    hide FindingsOf, Findings;
    FindingsGrow(b, b.intents.Keys - left, id);
    assert b.intents.Keys - (left - {id}) == (b.intents.Keys - left) + {id};
  }

  lemma PassEnds(b: Books, c: Books)
    requires PassedOver(b, c, {})
    ensures Reconciled(b, c)
  {
  }

  // ---- The bridge itself ----

  class ManualTradeBridge {
    var portfolio: P.Portfolio
    var intents: Intents

    constructor (portfolio: P.Portfolio, intents: Intents)
      ensures Now() == Books(portfolio, intents)
    {
      this.portfolio, this.intents := portfolio, intents;
    }

    function Now(): Books
      reads this
    {
      Books(portfolio, intents)
    }

    // The second write of an operation, which a crash can take away; a save loads the store first
    // and refuses to overwrite one it cannot read.
    method SaveIntent(i: Intent, dies: bool)
      modifies this`intents
      ensures intents == if dies || !Readable(old(intents)) then old(intents) else old(intents)[i.id := i]
    {
      if !dies && Readable(intents) { intents := intents[i.id := i]; }
    }

    // `id` is fresh and random.
    method Propose(id: string, r: Proposal, dies: bool) returns (ok: bool)
      modifies this
      ensures ok <==> ProposeEffect(old(Now()), id, r).Some?
      ensures !ok ==> Now() == old(Now())
      ensures ok ==> var e := ProposeEffect(old(Now()), id, r).value;
                     Now() == if dies then Half(old(Now()), e) else Done(old(Now()), e)
    {
      if !Readable(intents) { return false; }
      var intent := Intent(id, Proposed, r.symbol, r.side, if r.limitPrice.Some? then Limit else Market,
                           r.quantity, r.limitPrice, None, r.nowMs, None, None);
      if r.side == Buy {
        var reserved := P.ReserveOrder(portfolio, id, r.symbol.quote, r.requiredBalance);
        if reserved.Failure? { return false; }
        intent := intent.(reservationCurrency := Some(r.symbol.quote), reservationAmount := Some(r.requiredBalance));
        portfolio := reserved.value;
      } else if r.quantity > portfolio.Held(r.symbol) {
        return false;
      }
      SaveIntent(intent, dies);
      ok := true;
    }

    method Confirm(id: string) returns (ok: bool)
      modifies this`intents
      ensures ok <==> ConfirmEffect(old(Now()), id).Some?
      ensures Now() == if ok then Done(old(Now()), ConfirmEffect(old(Now()), id).value) else old(Now())
    {
      if !Readable(intents) || id !in intents || intents[id].status != Proposed { return false; }
      SaveIntent(intents[id].(status := Confirmed), false);
      ok := true;
    }

    method RecordEvidence(id: string, e: Evidence) returns (ok: bool)
      modifies this`intents
      ensures ok <==> EvidenceEffect(old(Now()), id, e).Some?
      ensures Now() == if ok then Done(old(Now()), EvidenceEffect(old(Now()), id, e).value) else old(Now())
    {
      if !Readable(intents) || id !in intents { return false; }
      var intent := intents[id];
      if IsTerminalIntent(intent.status) || intent.status == Proposed { return false; }
      if intent.evidence.Some? && ProgressConflict(intent.evidence.value, e) { return false; }
      SaveIntent(intent.(evidence := Some(e), status := EvidenceRecorded), false);
      ok := true;
    }

    // `settle` up to its await: the intent it goes on with, unless it is refused or contradicts itself.
    method BeginSettle(id: string) returns (snapshot: Option<Intent>)
      modifies this`intents
      ensures snapshot.Some? <==>
                && Readable(old(intents)) && id in old(intents) && CanSettle(old(intents)[id])
                && !ValidateStructural(old(intents)[id], old(intents)[id].evidence.value).Invalid?
      ensures snapshot.Some? ==> snapshot.value == old(intents)[id] && intents == old(intents)
      ensures snapshot.None? ==>
                intents == old(intents)
                || (id in old(intents) && CanSettle(old(intents)[id])
                    && intents == old(intents)[old(intents)[id].id := old(intents)[id].(status := Ambiguous)])
    {
      if !Readable(intents) || id !in intents || !CanSettle(intents[id]) { return None; }
      if ValidateStructural(intents[id], intents[id].evidence.value).Invalid? {
        SaveIntent(intents[id].(status := Ambiguous), false);
        return None;
      }
      snapshot := Some(intents[id]);
    }

    // `settle` after its await.
    method FinishSettle(snapshot: Intent, mode: P.SettlementMode, read: Option<Order>, dies: bool)
      requires snapshot.evidence.Some?
      modifies this
      ensures var e := SettleEffect(old(portfolio), snapshot, mode, read);
              Now() == if dies || !Readable(old(intents)) then Half(old(Now()), e) else Done(old(Now()), e)
    {
      var e := snapshot.evidence.value;
      var status: IntentStatus;
      match ValidateAgainstExchange(snapshot, e, read) {
        case Conflicting => status := Ambiguous;
        case Unreadable => status := ReconciliationRequired;
        case NotFinal => status := PendingFill;
        case Authoritative(a) =>
          if a.filledQuantity <= 0 {
            portfolio := P.ReleaseOrderReservation(portfolio, snapshot.id);
            status := CanceledIntent;
          } else if a.averagePrice.None? || a.averagePrice.value <= 0 {
            status := Ambiguous;
          } else if a.fee <= 0 || a.feeCurrency != QuoteFee {
            status := ReconciliationRequired;
          } else {
            var settled := P.SettleManualOrder(portfolio, snapshot.id, Booking(snapshot, e, mode, a));
            if settled.Failure? {
              status := Ambiguous;
            } else {
              portfolio := settled.value;
              status := AccountedBy(mode);
            }
          }
      }
      SaveIntent(snapshot.(status := status), dies);
    }

    method Cancel(id: string, dies: bool) returns (ok: bool)
      modifies this
      ensures ok <==> CancelEffect(old(Now()), id).Some?
      ensures !ok ==> Now() == old(Now())
      ensures ok ==> var e := CancelEffect(old(Now()), id).value;
                     Now() == if dies then Half(old(Now()), e) else Done(old(Now()), e)
    {
      if !Readable(intents) || id !in intents { return false; }
      var intent := intents[id];
      if intent.status != Proposed && intent.status != Confirmed && intent.status != EvidenceRecorded { return false; }
      if ReportsFill(intent.evidence) { return false; }
      if id in portfolio.reservations { portfolio := P.ReleaseOrderReservation(portfolio, id); }
      SaveIntent(intent.(status := CanceledIntent), dies);
      ok := true;
    }

    // The recovery pass, None when the intent store cannot be loaded.
    method Reconcile() returns (issues: Option<set<Issue>>)
      modifies this
      ensures issues.Some? <==> Readable(old(intents))
      ensures issues.None? ==> Now() == old(Now())
      ensures issues.Some? ==> issues.value == Report(old(Now())) && Reconciled(old(Now()), Now())
    {
      if !Readable(intents) { return None; }
      ghost var b := Now();
      var orphans := Orphans();
      var found := VisitIntents();
      PassEnds(b, Now());
      issues := Some(orphans + found);
    }

    method VisitIntents() returns (found: set<Issue>)
      modifies this
      ensures PassedOver(old(Now()), Now(), {})
      ensures found == FindingsOf(old(Now()), old(intents).Keys)
    {
      ghost var b := Now();
      found := {};
      var left := intents.Keys;
      PassBegins(b);
      assert b.intents.Keys - left == {};
      hide PassedOver, RepairOne, Findings, FindingsOf;
      while left != {}
        invariant left <= b.intents.Keys && intents.Keys == b.intents.Keys
        invariant PassedOver(b, Now(), left)
        invariant found == FindingsOf(b, b.intents.Keys - left)
        decreases |left|
      {
        var id :| id in left;
        PassesOver(b, Now(), left, id);
        FoundSoFar(b, left, id);
        found := found + Findings(Now(), id);
        ReconcileIntent(id);
        left := left - {id};
      }
      assert b.intents.Keys - {} == b.intents.Keys;
    }

    method ReconcileIntent(id: string)
      requires id in intents
      modifies this
      ensures Now() == RepairOne(old(Now()), id) && intents.Keys == old(intents).Keys
    {
      if Unfinalized(Now(), id) {
        intents := intents[id := intents[id].(status := AccountedBy(portfolio.settlements[id].mode))];
      } else if Leaked(Now(), id) {
        portfolio := P.ReleaseOrderReservation(portfolio, id);
      }
    }

    method Orphans() returns (found: set<Issue>)
      ensures found == set id | id in portfolio.reservations && id !in intents :: Orphan(id)
    {
      found := {};
      var left := portfolio.reservations.Keys;
      while left != {}
        invariant left <= portfolio.reservations.Keys
        invariant found == set id | id in portfolio.reservations.Keys - left && id !in intents :: Orphan(id)
        decreases |left|
      {
        var id :| id in left;
        if id !in intents { found := found + {Orphan(id)}; }
        left := left - {id};
      }
    }
  }
}
