/**
 Recovery of the manual bridge. A clean report of `reconcile` means exactly that the two stores
 agree afterwards, a second pass finds nothing more to do, and every crash between the two writes
 of an operation is either finished by the next pass or reported by it.
 */
module ManualRecovery {
  import opened Wrappers
  import opened Orders
  import opened ManualValidation
  import opened ManualBridge
  import opened PortfolioLaws
  import P = Portfolio

  // The two stores agree about an intent.
  predicate Agrees(b: Books, id: string)
    requires id in b.intents
  {
    var status := b.intents[id].status;
    && (IsAccounted(status) <==> id in b.portfolio.settlements)
    && (id in b.portfolio.settlements ==> status == AccountedBy(b.portfolio.settlements[id].mode))
    && status != Ambiguous && status != ReconciliationRequired
    && !LacksReservation(b, id) && !Leaked(b, id)
  }

  ghost predicate Clean(b: Books) {
    && (forall id :: id in b.portfolio.reservations ==> id in b.intents)
    && (forall id :: id in b.intents ==> Agrees(b, id))
  }

  lemma AgreesAfterIff(b: Books, c: Books, id: string)
    requires Reconciled(b, c) && id in b.intents
    ensures (forall i :: i in Findings(b, id) ==> IsFix(i)) <==> Agrees(c, id)
  {
    assert c.portfolio.settlements == b.portfolio.settlements by { assert OnlyReleases(b, c); }
    assert c.intents[id] == Finalized(b, id);
    hide OnlyReleases;
    if Findings(b, id) != {} {
      var i :| i in Findings(b, id);
    }
  }

  lemma ReportIsSafeIff(b: Books)
    ensures SafeReport(Report(b)) <==>
              && (forall id :: id in b.portfolio.reservations ==> id in b.intents)
              && (forall id :: id in b.intents ==> forall i :: i in Findings(b, id) ==> IsFix(i))
  {
    hide Findings;
    forall id | id in b.portfolio.reservations && id !in b.intents ensures !SafeReport(Report(b)) {
      assert Orphan(id) in Report(b) && !IsFix(Orphan(id));
    }
    forall id, i | id in b.intents && i in Findings(b, id) ensures i in Report(b) {
    }
  }

  // safeToTrade is exactly agreement afterwards, from any pair of stores.
  lemma SafeIffClean(b: Books, c: Books)
    requires Reconciled(b, c)
    ensures SafeReport(Report(b)) <==> Clean(c)
    // Nothing moved: the money and the accounting ledgers are what they were.
    ensures c.portfolio.cash == b.portfolio.cash && c.portfolio.positions == b.portfolio.positions
    ensures c.portfolio.settlements == b.portfolio.settlements
  {
    ReportIsSafeIff(b);
    forall id | id in b.intents
      ensures (forall i :: i in Findings(b, id) ==> IsFix(i)) <==> Agrees(c, id)
    {
      AgreesAfterIff(b, c, id);
    }
    assert OnlyReleases(b, c) && c.intents.Keys == b.intents.Keys
        && c.portfolio.reservations.Keys == b.portfolio.reservations.Keys;
    hide Findings, Agrees, OnlyReleases, Report, SafeReport;
  }

  // ---- A second pass ----

  lemma SecondPassFindings(b: Books, c: Books, id: string)
    requires Reconciled(b, c) && id in b.intents
    ensures Findings(c, id) == set i | i in Findings(b, id) && !IsFix(i)
    ensures !Unfinalized(c, id) && !Leaked(c, id)
  {
    assert c.portfolio.settlements == b.portfolio.settlements by { assert OnlyReleases(b, c); }
    assert c.intents[id] == Finalized(b, id);
    hide OnlyReleases;
  }

  lemma ReconcileIsIdempotent(b: Books, c: Books, d: Books)
    requires Reconciled(b, c) && Reconciled(c, d)
    ensures d == c
    ensures Report(c) == set i | i in Report(b) && !IsFix(i)
  {
    forall id | id in b.intents
      ensures Findings(c, id) == (set i | i in Findings(b, id) && !IsFix(i)) && !Unfinalized(c, id) && !Leaked(c, id)
    {
      SecondPassFindings(b, c, id);
    }
    assert c.intents.Keys == b.intents.Keys && c.portfolio.reservations.Keys == b.portfolio.reservations.Keys;
    NothingLeftToRepair(c, d);
    SameErrors(b, c);
    hide Report, Reconciled;
  }

  lemma NothingLeftToRepair(c: Books, d: Books)
    requires Reconciled(c, d) && forall id :: id in c.intents ==> !Unfinalized(c, id) && !Leaked(c, id)
    ensures d == c
  {
    hide Unfinalized, Leaked;
    assert OnlyReleases(c, d);
    assert d.intents == c.intents;
  }

  lemma SameErrors(b: Books, c: Books)
    requires c.intents.Keys == b.intents.Keys && c.portfolio.reservations.Keys == b.portfolio.reservations.Keys
    requires forall id :: id in b.intents ==> Findings(c, id) == set i | i in Findings(b, id) && !IsFix(i)
    ensures Report(c) == set i | i in Report(b) && !IsFix(i)
  {
    hide Findings;
    forall i ensures i in FindingsOf(c, c.intents.Keys) <==> i in FindingsOf(b, b.intents.Keys) && !IsFix(i) {
      if i in FindingsOf(c, c.intents.Keys) {
        var id :| id in c.intents && i in Findings(c, id);
        assert i in Findings(b, id);
      }
      if i in FindingsOf(b, b.intents.Keys) && !IsFix(i) {
        var id :| id in b.intents && i in Findings(b, id);
        assert i in Findings(c, id);
      }
    }
    hide FindingsOf;
  }

  // ---- Completed operations keep the agreement ----

  // One intent is written, and nobody else's reservation or settlement moves.
  lemma OneIntentKeepsClean(b: Books, e: Effect)
    requires Clean(b) && e.portfolio.reservations.Keys <= b.portfolio.reservations.Keys + {e.intent.id}
    requires forall id :: id in b.intents && id != e.intent.id ==> SameSettlementView(b, Half(b, e), id)
    ensures Clean(Done(b, e)) <==> Agrees(Done(b, e), e.intent.id)
  {
    var c := Done(b, e);
    forall id | id in b.intents && id != e.intent.id ensures Agrees(c, id) {
      assert Agrees(b, id) && SameSettlementView(b, Half(b, e), id) && c.intents[id] == b.intents[id];
    }
    hide Agrees, SameSettlementView;
  }

  lemma ProposalKeepsClean(b: Books, id: string, r: Proposal)
    requires Clean(b) && id !in b.intents && id !in b.portfolio.settlements && ProposeEffect(b, id, r).Some?
    ensures Clean(Done(b, ProposeEffect(b, id, r).value))
  {
    ProposalLeavesOthers(b, id, r);
    hide ProposeEffect, Clean, Agrees, SameSettlementView;
    OneIntentKeepsClean(b, ProposeEffect(b, id, r).value);
  }

  lemma ProposalLeavesOthers(b: Books, id: string, r: Proposal)
    requires id !in b.portfolio.settlements && ProposeEffect(b, id, r).Some?
    ensures var e := ProposeEffect(b, id, r).value;
            && e.intent.id == id && e.portfolio.reservations.Keys <= b.portfolio.reservations.Keys + {id}
            && Agrees(Done(b, e), id)
            && forall other :: other in b.intents && other != id ==> SameSettlementView(b, Half(b, e), other)
  {
    ProposalShape(b, id, r);
    hide ProposeEffect;
  }

  lemma ProposalShape(b: Books, id: string, r: Proposal)
    requires ProposeEffect(b, id, r).Some?
    ensures var e := ProposeEffect(b, id, r).value;
            && e.intent.id == id && e.intent.status == Proposed && e.intent.side == r.side
            && e.portfolio.settlements == b.portfolio.settlements
            && (e.portfolio == b.portfolio || e.portfolio.reservations.Keys == b.portfolio.reservations.Keys + {id})
            && (forall i :: i in b.portfolio.reservations && i != id ==>
                e.portfolio.reservations[i] == b.portfolio.reservations[i])
            && (if r.side == Buy then e.portfolio.HasActiveReservation(id) else e.portfolio == b.portfolio)
  {
    hide Readable;
  }

  // A new status or evidence of an intent that goes on being in progress leaves it in agreement.
  lemma ProgressAgrees(b: Books, id: string, j: Intent)
    requires id in b.intents && Agrees(b, id) && !IsTerminalIntent(b.intents[id].status)
    requires j.id == id && InProgress(j.status) && j.side == b.intents[id].side
    requires j.reservationCurrency == b.intents[id].reservationCurrency
        && j.reservationAmount == b.intents[id].reservationAmount
    ensures Agrees(Done(b, Effect(b.portfolio, j)), id)
  {
  }

  lemma ConfirmationAndEvidenceKeepClean(b: Books, id: string, e: Evidence)
    requires Clean(b) && id in b.intents && b.intents[id].id == id
    ensures ConfirmEffect(b, id).Some? ==> Clean(Done(b, ConfirmEffect(b, id).value))
    ensures EvidenceEffect(b, id, e).Some? ==> Clean(Done(b, EvidenceEffect(b, id, e).value))
  {
    assert Agrees(b, id);
    hide Readable, ProgressConflict, Clean, Agrees;
    if ConfirmEffect(b, id).Some? {
      ProgressAgrees(b, id, ConfirmEffect(b, id).value.intent);
      OneIntentKeepsClean(b, ConfirmEffect(b, id).value);
    }
    if EvidenceEffect(b, id, e).Some? {
      ProgressAgrees(b, id, EvidenceEffect(b, id, e).value.intent);
      OneIntentKeepsClean(b, EvidenceEffect(b, id, e).value);
    }
  }

  lemma CancellationKeepsClean(b: Books, id: string)
    requires Clean(b) && id in b.intents && b.intents[id].id == id && CancelEffect(b, id).Some?
    ensures Clean(Done(b, CancelEffect(b, id).value))
  {
    assert Agrees(b, id);
    CanceledAgrees(b, id);
    ReleaseShape(b.portfolio, id);
    var e := CancelEffect(b, id).value;
    assert e.portfolio == P.ReleaseOrderReservation(b.portfolio, id) && e.intent.id == id;
    hide Clean, Agrees, Readable, CancelEffect, P.ReleaseOrderReservation;
    OneIntentKeepsClean(b, e);
  }

  lemma CanceledAgrees(b: Books, id: string)
    requires id in b.intents && Agrees(b, id) && b.intents[id].id == id && CancelEffect(b, id).Some?
    ensures Agrees(Done(b, CancelEffect(b, id).value), id)
  {
    ReleaseShape(b.portfolio, id);
    hide Readable, P.ReleaseOrderReservation;
  }

  // A settlement keeps the agreement exactly when it decides: ambiguous and reconciliation-required
  // intents are the ones every later pass reports.
  lemma SettlementKeepsCleanIff(b: Books, id: string, mode: P.SettlementMode, read: Option<Order>)
    requires Clean(b) && id in b.intents && b.intents[id].id == id && CanSettle(b.intents[id])
    ensures var e := SettleEffect(b.portfolio, b.intents[id], mode, read);
            Clean(Done(b, e)) <==> e.intent.status != Ambiguous && e.intent.status != ReconciliationRequired
  {
    assert Agrees(b, id);
    SettlementLeavesOthers(b, id, mode, read);
    SettledAgreesIff(b, id, mode, read);
    hide SettleEffect, Clean, Agrees, CanSettle, SameSettlementView;
    OneIntentKeepsClean(b, SettleEffect(b.portfolio, b.intents[id], mode, read));
  }

  lemma SettlementLeavesOthers(b: Books, id: string, mode: P.SettlementMode, read: Option<Order>)
    requires id in b.intents && Agrees(b, id) && b.intents[id].id == id && CanSettle(b.intents[id])
    ensures var e := SettleEffect(b.portfolio, b.intents[id], mode, read);
            && e.intent.id == id && e.portfolio.reservations.Keys == b.portfolio.reservations.Keys
            && forall other :: other in b.intents && other != id ==> SameSettlementView(b, Half(b, e), other)
  {
    SettlementShape(b.portfolio, b.intents[id], mode, read);
    hide SettleEffect;
  }

  lemma SettledAgreesIff(b: Books, id: string, mode: P.SettlementMode, read: Option<Order>)
    requires id in b.intents && Agrees(b, id) && b.intents[id].id == id && CanSettle(b.intents[id])
    ensures var e := SettleEffect(b.portfolio, b.intents[id], mode, read);
            Agrees(Done(b, e), id) <==> e.intent.status != Ambiguous && e.intent.status != ReconciliationRequired
  {
    SettlementShape(b.portfolio, b.intents[id], mode, read);
    hide SettleEffect;
  }

  predicate SettledIn(p: P.Portfolio, id: string, mode: P.SettlementMode) {
    id in p.settlements && p.settlements[id].mode == mode
  }

  // The outcomes of a settlement and what each leaves of the intent's reservation and settlement.
  lemma SettlementShape(p: P.Portfolio, i: Intent, mode: P.SettlementMode, read: Option<Order>)
    requires CanSettle(i) && i.id !in p.settlements
    ensures var e := SettleEffect(p, i, mode, read);
            && e.intent == i.(status := e.intent.status)
            && e.portfolio.reservations.Keys == p.reservations.Keys
            && (forall other :: other in p.reservations && other != i.id ==>
                e.portfolio.reservations[other] == p.reservations[other])
            && (forall other :: other != i.id ==> (other in e.portfolio.settlements <==> other in p.settlements))
            && (forall other :: other in p.settlements ==>
                  other in e.portfolio.settlements && e.portfolio.settlements[other] == p.settlements[other])
            && match e.intent.status
               case AccountedExchange => SettledIn(e.portfolio, i.id, mode) && !mode.OperatorAttested?
               case AccountedOperator => SettledIn(e.portfolio, i.id, mode) && mode.OperatorAttested?
               case CanceledIntent => i.id !in e.portfolio.settlements && !e.portfolio.HasActiveReservation(i.id)
               case _ =>
                 && e.portfolio == p
                 && (e.intent.status == PendingFill || e.intent.status == Ambiguous
                     || e.intent.status == ReconciliationRequired)
  {
    var e := SettleEffect(p, i, mode, read);
    SettlementOutcome(p, i, mode, read);
    if IsAccounted(e.intent.status) {
      SettlementTouchesOwn(p, i, mode, read);
      hide SettleEffect;
    } else {
      ReleaseShape(p, i.id);
      hide SettleEffect, P.ReleaseOrderReservation;
    }
  }

  lemma SettlementOutcome(p: P.Portfolio, i: Intent, mode: P.SettlementMode, read: Option<Order>)
    requires CanSettle(i)
    ensures var e := SettleEffect(p, i, mode, read);
            && e.intent == i.(status := e.intent.status)
            && (|| e.intent.status == AccountedBy(mode)
                || (e.intent.status == CanceledIntent && e.portfolio == P.ReleaseOrderReservation(p, i.id))
                || (e.portfolio == p
                    && (e.intent.status == PendingFill || e.intent.status == Ambiguous
                        || e.intent.status == ReconciliationRequired)))
  {
    hide P.SettleManualOrder, P.ReleaseOrderReservation, ValidateAgainstExchange;
  }

  lemma ReleaseShape(p: P.Portfolio, id: string)
    ensures var q := P.ReleaseOrderReservation(p, id);
            && q.settlements == p.settlements && q.reservations.Keys == p.reservations.Keys
            && !q.HasActiveReservation(id)
            && forall other :: other in p.reservations && other != id ==> q.reservations[other] == p.reservations[other]
  {
  }

  // ---- Crashes ----

  // A crash after the reservation of a proposal: the next pass reports the orphan.
  lemma CrashedProposalIsReported(b: Books, id: string, r: Proposal)
    requires id !in b.intents && ProposeEffect(b, id, r).Some?
    ensures var half := Half(b, ProposeEffect(b, id, r).value);
            if r.side == Buy then Orphan(id) in Report(half) && !SafeReport(Report(half)) else half == b
  {
    var half := Half(b, ProposeEffect(b, id, r).value);
    if r.side == Buy {
      assert id in half.portfolio.reservations;
      assert !IsFix(Orphan(id));
    }
  }

  // A crash after the settlement: from agreeing stores the next pass ends exactly where the
  // operation would have, and reports only that it did so.
  lemma CrashedSettlementIsCompleted(b: Books, id: string, mode: P.SettlementMode, read: Option<Order>, c: Books)
    requires Clean(b) && id in b.intents && b.intents[id].id == id && CanSettle(b.intents[id])
    requires var e := SettleEffect(b.portfolio, b.intents[id], mode, read);
             IsAccounted(e.intent.status) && Reconciled(Half(b, e), c)
    ensures var e := SettleEffect(b.portfolio, b.intents[id], mode, read);
            c == Done(b, e) && Clean(c) && Report(Half(b, e)) == {StatusFinalized(id)}
  {
    var e := SettleEffect(b.portfolio, b.intents[id], mode, read);
    var half := Half(b, e);
    assert Agrees(b, id);
    SettlementTouchesOwn(b.portfolio, b.intents[id], mode, read);
    hide SettleEffect, Clean;
    forall other | other in b.intents
      ensures Findings(half, other) == (if other == id then {StatusFinalized(id)} else {})
      ensures !Leaked(half, other)
      ensures Finalized(half, other) == if other == id then e.intent else b.intents[other]
    {
      assert Agrees(b, other) by { assert Clean(b); }
      HalfSettlementFindings(b, half, id, other);
    }
    assert forall r :: r in half.portfolio.reservations ==> r in b.intents by { assert Clean(b); }
    SafeIffClean(half, c);
    CompletedPass(b, half, e, c);
  }

  // A pass over books whose only finding is one unfinalized status.
  lemma CompletedPass(b: Books, half: Books, e: Effect, c: Books)
    requires half == Half(b, e) && e.intent.id in b.intents && Reconciled(half, c)
    requires forall r :: r in half.portfolio.reservations ==> r in b.intents
    requires forall i :: i in b.intents ==>
               && Findings(half, i) == (if i == e.intent.id then {StatusFinalized(i)} else {}) && !Leaked(half, i)
               && Finalized(half, i) == if i == e.intent.id then e.intent else b.intents[i]
    ensures c == Done(b, e) && Report(half) == {StatusFinalized(e.intent.id)} && SafeReport(Report(half))
  {
    assert OnlyReleases(half, c);
    hide Findings, Leaked, Finalized, OnlyReleases;
    assert c.intents == Done(b, e).intents;
  }

  lemma HalfSettlementFindings(b: Books, half: Books, id: string, other: string)
    requires half.intents == b.intents && id in b.intents && other in b.intents
    requires Agrees(b, id) && Agrees(b, other)
    requires id in half.portfolio.settlements && id !in b.portfolio.settlements
    requires other != id ==> SameSettlementView(b, half, other)
    ensures Findings(half, other) == (if other == id then {StatusFinalized(id)} else {})
    ensures !Leaked(half, other)
    ensures other != id ==> Finalized(half, other) == b.intents[other]
    ensures Finalized(half, id) == b.intents[id].(status := AccountedBy(half.portfolio.settlements[id].mode))
  {
  }

  predicate SameSettlementView(b: Books, c: Books, id: string) {
    && (id in c.portfolio.settlements <==> id in b.portfolio.settlements)
    && (id in b.portfolio.settlements ==> c.portfolio.settlements[id] == b.portfolio.settlements[id])
    && (id in c.portfolio.reservations <==> id in b.portfolio.reservations)
    && (id in b.portfolio.reservations ==> c.portfolio.reservations[id] == b.portfolio.reservations[id])
  }

  // An accounting settlement adds one settlement, under its own id and mode.
  lemma SettlementTouchesOwn(p: P.Portfolio, intent: Intent, mode: P.SettlementMode, read: Option<Order>)
    requires intent.evidence.Some? && IsAccounted(SettleEffect(p, intent, mode, read).intent.status)
        && !IsAccounted(intent.status)
    requires intent.id !in p.settlements
    ensures var e := SettleEffect(p, intent, mode, read);
            && e.intent == intent.(status := AccountedBy(mode))
            && read.Some? && read.value.averagePrice.Some?
            && e.portfolio.settlements
                == p.settlements[intent.id := Booking(intent, intent.evidence.value, mode, read.value)]
            && e.portfolio.reservations.Keys == p.reservations.Keys
            && (forall i :: i in p.reservations && i != intent.id ==> e.portfolio.reservations[i] == p.reservations[i])
  {
    hide Contradicts, HasBasis;
    var s := Booking(intent, intent.evidence.value, mode, read.value);
    assert P.SettleManualOrder(p, intent.id, s).Success?;
    SettleReservedFrame(p, intent.id, s.symbol, s.side, s.quantity, s.price, s.fee);
  }

  // A crash after a release, by a cancellation or by a settlement without a fill: the intent still
  // claims a reservation it no longer has, and the next pass reports it.
  lemma CrashedReleaseIsReported(b: Books, id: string, e: Effect)
    requires Clean(b) && id in b.intents && InProgress(b.intents[id].status)
    requires e.portfolio == P.ReleaseOrderReservation(b.portfolio, id) && e.portfolio != b.portfolio
    requires b.intents[id].side == Buy && b.intents[id].reservationCurrency.Some?
        && b.intents[id].reservationAmount.Some?
    ensures MissingReservation(id) in Report(Half(b, e)) && !SafeReport(Report(Half(b, e)))
  {
    var half := Half(b, e);
    assert Agrees(b, id);
    assert MissingReservation(id) in Findings(half, id);
    hide Findings;
    assert !IsFix(MissingReservation(id));
  }
}
