/**
 Whole histories of the manual bridge: any interleaving of its operations, with settlements
 suspended at their exchange read, crashes between any two writes, recovery passes, and other
 accounting on the same portfolio. Every intent is booked at most once, from an exchange read and
 within its proposal. Finished intents and final evidence stay as they are, except that a
 settlement that was waiting writes the intent back as it was before its read, for which the exact
 condition is given and `ManualOverlaps` has examples, and that a recovery pass finalizes what is booked.
 */
module ManualHistory {
  import opened Wrappers
  import opened Money
  import opened Orders
  import opened ManualValidation
  import opened ManualBridge
  import opened PortfolioLaws
  import opened AccountingHistory
  import P = Portfolio

  // A settlement waiting for its exchange read, with the intent it read before.
  datatype Settling = Settling(intent: Intent, mode: P.SettlementMode)

  datatype World = World(books: Books, settling: map<nat, Settling>)

  datatype Event =
    | Propose(id: string, proposal: Proposal, dies: bool)
    | Confirm(id: string)
    | Record(id: string, evidence: Evidence)
    | Begin(task: nat, id: string, mode: P.SettlementMode)
    | Finish(task: nat, read: Option<Order>, dies: bool)
    | Cancel(id: string, dies: bool)
    | Reconcile(after: Books)
    | Crash
    | Elsewhere(op: Op)          // a reservation, release, live fill or attestation

  function Write(w: World, e: Option<Effect>, dies: bool): World {
    if e.None? then w
    else w.(books := if dies || !Readable(w.books.intents) then Half(w.books, e.value) else Done(w.books, e.value))
  }

  ghost function Next(w: World, e: Event): World {
    match e
    case Propose(id, r, dies) => if id in w.books.intents then w else Write(w, ProposeEffect(w.books, id, r), dies)
    case Confirm(id) => Write(w, ConfirmEffect(w.books, id), false)
    case Record(id, ev) => Write(w, EvidenceEffect(w.books, id, ev), false)
    case Begin(t, id, mode) =>
      if t in w.settling || !Readable(w.books.intents) || id !in w.books.intents || !CanSettle(w.books.intents[id])
      then w
      else
        var intent := w.books.intents[id];
        if ValidateStructural(intent, intent.evidence.value).Invalid?
        then Write(w, Some(Effect(w.books.portfolio, intent.(status := Ambiguous))), false)
        else w.(settling := w.settling[t := Settling(intent, mode)])
    case Finish(t, read, dies) =>
      if t !in w.settling || w.settling[t].intent.evidence.None? then w
      else
        var s := w.settling[t];
        Write(w, Some(SettleEffect(w.books.portfolio, s.intent, s.mode, read)), dies).(settling := w.settling - {t})
    case Cancel(id, dies) => Write(w, CancelEffect(w.books, id), dies)
    case Reconcile(after) => if Readable(w.books.intents) && Reconciled(w.books, after) then w.(books := after) else w
    case Crash => w.(settling := map[])
    case Elsewhere(op) =>
      if op.SettleManual? then w else w.(books := w.books.(portfolio := Apply(w.books.portfolio, op)))
  }

  ghost function Run(w: World, es: seq<Event>): World
    decreases |es|
  {
    if es == [] then w else Next(Run(w, es[..|es| - 1]), es[|es| - 1])
  }

  // ---- Booked once, and only what the exchange confirmed ----

  predicate WithinProposal(s: P.Settlement, i: Intent) {
    s.symbol == i.symbol && s.side == i.side && 0 < s.quantity <= i.quantity && s.price > 0 && s.fee > 0
  }

  predicate SameTerms(a: Intent, b: Intent) {
    a.id == b.id && a.symbol == b.symbol && a.side == b.side && a.quantity == b.quantity
  }

  ghost predicate Keyed(w: World) {
    && (forall id :: id in w.books.intents ==> w.books.intents[id].id == id)
    && (forall t :: t in w.settling ==>
          && w.settling[t].intent.id in w.books.intents
          && SameTerms(w.settling[t].intent, w.books.intents[w.settling[t].intent.id]))
  }

  ghost predicate BookedWithinProposals(b: Books) {
    forall id :: id in b.portfolio.settlements ==>
        id in b.intents && WithinProposal(b.portfolio.settlements[id], b.intents[id])
  }

  // The intents keep their terms and none is lost, what was booked stays, and what is new is
  // within the proposal of its intent.
  ghost predicate Extends(b: Books, c: Books) {
    && (forall id :: id in b.intents ==> id in c.intents && SameTerms(b.intents[id], c.intents[id]))
    && (forall id :: id in c.intents ==> c.intents[id].id == id)
    && (forall id :: id in b.portfolio.settlements ==>
          id in c.portfolio.settlements && c.portfolio.settlements[id] == b.portfolio.settlements[id])
    && (forall id :: id in c.portfolio.settlements && id !in b.portfolio.settlements ==>
          id in b.intents && WithinProposal(c.portfolio.settlements[id], b.intents[id]))
  }

  // One intent is written over one with its terms, and the settlements grow by at most its own.
  lemma WriteExtends(b: Books, e: Effect)
    requires forall id :: id in b.intents ==> b.intents[id].id == id
    requires e.intent.id in b.intents ==> SameTerms(e.intent, b.intents[e.intent.id])
    requires || e.portfolio.settlements == b.portfolio.settlements
             || (e.intent.id !in b.portfolio.settlements && e.intent.id in b.intents
                 && e.portfolio.settlements.Keys == b.portfolio.settlements.Keys + {e.intent.id}
                 && e.portfolio.settlements
                     == b.portfolio.settlements[e.intent.id := e.portfolio.settlements[e.intent.id]]
                 && WithinProposal(e.portfolio.settlements[e.intent.id], b.intents[e.intent.id]))
    ensures Extends(b, Half(b, e)) && Extends(b, Done(b, e))
  {
  }

  lemma ReleaseKeepsSettlements(p: P.Portfolio, id: string)
    ensures P.ReleaseOrderReservation(p, id).settlements == p.settlements
  {
  }

  // A settlement books what the exchange read says, or nothing.
  lemma SettleBooksTheRead(p: P.Portfolio, i: Intent, mode: P.SettlementMode, read: Option<Order>)
    requires i.evidence.Some?
    ensures var e := SettleEffect(p, i, mode, read);
            && SameTerms(e.intent, i)
            && (e.portfolio.settlements == p.settlements
                || (i.id !in p.settlements && read.Some? && read.value.averagePrice.Some?
                    && var s := Booking(i, i.evidence.value, mode, read.value);
                       e.portfolio.settlements == p.settlements[i.id := s] && WithinProposal(s, i)))
  {
    var e := SettleEffect(p, i, mode, read);
    ReleaseKeepsSettlements(p, i.id);
    if e.portfolio.settlements != p.settlements && i.id !in p.settlements {
      var s := Booking(i, i.evidence.value, mode, read.value);
      SettleReservedFrame(p, i.id, s.symbol, s.side, s.quantity, s.price, s.fee);
    }
    hide P.SettleReserved, P.ReleaseOrderReservation, HasBasis, SameExternalOrderId;
  }

  lemma OtherOpsKeepSettlements(p: P.Portfolio, op: Op)
    requires !op.SettleManual?
    ensures Apply(p, op).settlements == p.settlements
  {
    if Attempt(p, op).Success? {
      match op
      case LiveFill(id, s, side, fill) =>
        if fill.executionId.value !in p.applied { LiveFillFrame(p, id, s, side, fill); }
      case Attest(id, n, a, f) =>
        if id !in p.attestations { SettleReservedFrame(p, id, a.symbol, a.side, a.quantity, a.price, a.fee); }
      case Reserve(_, _, _) =>
      case Release(_) =>
    }
  }

  lemma NextExtends(w: World, e: Event)
    requires Keyed(w)
    ensures Extends(w.books, Next(w, e).books)
  {
    match e {
      case Finish(t, read, _) =>
        hide SettleEffect, Extends;
        NothingExtends(w);
        if t in w.settling && w.settling[t].intent.evidence.Some? { FinishExtends(w, t, read); }
      case Reconcile(after) =>
        ReconcileExtends(w.books, after);
        NothingExtends(w);
        hide Reconciled, Extends, Keyed;
      case Crash => NothingExtends(w);
      case Elsewhere(op) => if !op.SettleManual? { OtherOpsKeepSettlements(w.books.portfolio, op); }
      case _ => OperationExtends(w, e);
    }
  }

  lemma NothingExtends(w: World)
    requires Keyed(w)
    ensures Extends(w.books, w.books)
  {
  }

  lemma OperationExtends(w: World, e: Event)
    requires Keyed(w) && !e.Finish? && !e.Reconcile? && !e.Crash? && !e.Elsewhere?
    ensures Extends(w.books, Next(w, e).books)
  {
    NothingExtends(w);
    hide Extends, WithinProposal, Readable, P.ReleaseOrderReservation, ProgressConflict, ValidateStructural;
    match e {
      case Propose(id, r, _) =>
        if id !in w.books.intents && ProposeEffect(w.books, id, r).Some? {
          WriteExtends(w.books, ProposeEffect(w.books, id, r).value);
        }
      case Confirm(id) =>
        if ConfirmEffect(w.books, id).Some? { WriteExtends(w.books, ConfirmEffect(w.books, id).value); }
      case Record(id, ev) =>
        if EvidenceEffect(w.books, id, ev).Some? { WriteExtends(w.books, EvidenceEffect(w.books, id, ev).value); }
      case Begin(t, id, _) =>
        if id in w.books.intents {
          WriteExtends(w.books, Effect(w.books.portfolio, w.books.intents[id].(status := Ambiguous)));
        }
      case Cancel(id, _) =>
        if CancelEffect(w.books, id).Some? {
          ReleaseKeepsSettlements(w.books.portfolio, id);
          WriteExtends(w.books, CancelEffect(w.books, id).value);
        }
    }
  }

  lemma FinishExtends(w: World, t: nat, read: Option<Order>)
    requires Keyed(w) && t in w.settling && w.settling[t].intent.evidence.Some?
    ensures var e := SettleEffect(w.books.portfolio, w.settling[t].intent, w.settling[t].mode, read);
            Extends(w.books, Half(w.books, e)) && Extends(w.books, Done(w.books, e))
  {
    var s := w.settling[t];
    var e := SettleEffect(w.books.portfolio, s.intent, s.mode, read);
    SettleBooksTheRead(w.books.portfolio, s.intent, s.mode, read);
    hide SettleEffect;
    if e.portfolio.settlements != w.books.portfolio.settlements {
      assert e.portfolio.settlements.Keys == w.books.portfolio.settlements.Keys + {s.intent.id};
    }
    WriteExtends(w.books, e);
  }

  lemma ReconcileExtends(b: Books, c: Books)
    requires forall id :: id in b.intents ==> b.intents[id].id == id
    ensures Reconciled(b, c) ==> Extends(b, c)
  {
    if Reconciled(b, c) {
      assert OnlyReleases(b, c);
      hide OnlyReleases;
    }
  }

  lemma NextIsKeyed(w: World, e: Event)
    requires Keyed(w)
    ensures Keyed(Next(w, e))
  {
    NextExtends(w, e);
    SettlingChanges(w, e);
    var v := Next(w, e);
    hide Next, WithinProposal;
  }

  // A waiting settlement was waiting before, or just read its intent.
  lemma SettlingChanges(w: World, e: Event)
    ensures var v := Next(w, e);
            forall t :: t in v.settling ==>
              if t in w.settling then v.settling[t] == w.settling[t]
              else e.Begin? && t == e.task && v.books == w.books && e.id in w.books.intents
                   && v.settling[t].intent == w.books.intents[e.id] && CanSettle(w.books.intents[e.id])
  {
    hide ProposeEffect, ConfirmEffect, EvidenceEffect, CancelEffect, SettleEffect, Reconciled, Apply, Readable,
        ValidateStructural;
  }

  lemma ExtendsKeepsBooked(b: Books, c: Books)
    requires Extends(b, c) && BookedWithinProposals(b)
    ensures BookedWithinProposals(c)
  {
  }

  // From empty settlements, at every point of every history: what is booked for an intent lies
  // within its proposal, at a positive price and fee.
  lemma {:induction false} ManualAccountingIsSound(w: World, es: seq<Event>)
    requires Keyed(w) && BookedWithinProposals(w.books)
    ensures Keyed(Run(w, es)) && BookedWithinProposals(Run(w, es).books)
    decreases |es|
  {
    if es != [] {
      var init := es[..|es| - 1];
      ManualAccountingIsSound(w, init);
      hide Next, Keyed, Extends, BookedWithinProposals;
      NextIsKeyed(Run(w, init), es[|es| - 1]);
      NextExtends(Run(w, init), es[|es| - 1]);
      ExtendsKeepsBooked(Run(w, init).books, Run(w, es).books);
    }
  }

  // A booked settlement is never replaced, whatever is retried or interrupted: one per intent.
  lemma {:induction false} BookedOnce(w: World, es: seq<Event>, id: string)
    requires Keyed(w) && id in w.books.portfolio.settlements
    ensures Keyed(Run(w, es))
    ensures id in Run(w, es).books.portfolio.settlements
    ensures Run(w, es).books.portfolio.settlements[id] == w.books.portfolio.settlements[id]
    decreases |es|
  {
    if es != [] {
      var init := es[..|es| - 1];
      BookedOnce(w, init, id);
      hide Next, Keyed;
      NextIsKeyed(Run(w, init), es[|es| - 1]);
      NextExtends(Run(w, init), es[|es| - 1]);
    }
  }

  // ---- Finished intents and final evidence ----

  ghost predicate StaysFinal(i: Intent, j: Intent) {
    && (IsTerminalIntent(i.status) ==> j == i)
    && (ClassOf(i.evidence) != StillOpen ==> ClassOf(j.evidence) == ClassOf(i.evidence))
  }

  // Every operation but the end of a waiting settlement and a recovery pass.
  lemma OperationStaysFinal(w: World, e: Event, id: string)
    requires Keyed(w) && id in w.books.intents && !e.Finish? && !e.Reconcile?
    ensures id in Next(w, e).books.intents && StaysFinal(w.books.intents[id], Next(w, e).books.intents[id])
  {
    if e.Record? && id == e.id && w.books.intents[id].evidence.Some? {
      AcceptedEvidenceKeepsItsClassIff(w.books.intents[id].evidence.value, e.evidence);
    }
    hide Readable, ValidateStructural, ValidateAgainstExchange, ProgressConflict, ClassOf, Apply;
    hide P.ReserveOrder, P.ReleaseOrderReservation, P.SettleManualOrder;
  }

  // A recovery pass changes an intent only to the accounted form of what is booked for it.
  lemma ReconcileFinalizes(w: World, after: Books, id: string)
    requires id in w.books.intents
    ensures var v := Next(w, Reconcile(after));
            && id in v.books.intents && v.books.portfolio.settlements == w.books.portfolio.settlements
            && (v.books.intents[id] == w.books.intents[id] || v.books.intents[id] == Finalized(w.books, id))
  {
    if Reconciled(w.books, after) {
      assert OnlyReleases(w.books, after);
      hide OnlyReleases;
    }
  }

  // ---- What a waiting settlement does to an intent that changed while it waited ----

  // `i` is the intent as the settlement read it.
  predicate ConfirmsNoFill(i: Intent, read: Option<Order>)
    requires i.evidence.Some?
  {
    ValidateAgainstExchange(i, i.evidence.value, read).Authoritative? && read.value.filledQuantity <= 0
  }

  // The exchange confirms a fill at a price and with a quote fee, and the portfolio has booked
  // exactly that for the intent or can book it.
  predicate ConfirmsBooking(p: P.Portfolio, i: Intent, mode: P.SettlementMode, read: Option<Order>)
    requires i.evidence.Some?
  {
    && ValidateAgainstExchange(i, i.evidence.value, read).Authoritative?
    && var a := read.value;
       && a.filledQuantity > 0 && a.averagePrice.Some? && a.averagePrice.value > 0 && a.fee > 0
       && a.feeCurrency == QuoteFee
       && if i.id in p.settlements
          then i.id != "" && P.SameSettlement(p.settlements[i.id], Booking(i, i.evidence.value, mode, a))
          else P.SettleManualOrder(p, i.id, Booking(i, i.evidence.value, mode, a)).Success?
  }

  // It overwrites a cancellation, unless the exchange reports a final state without a fill and
  // nothing but the cancellation happened.
  lemma WaitingSettlementKeepsCancellationIff(b: Books, i: Intent, mode: P.SettlementMode, read: Option<Order>)
    requires i.evidence.Some? && i.id in b.intents && b.intents[i.id].status == CanceledIntent
    ensures Done(b, SettleEffect(b.portfolio, i, mode, read)).intents[i.id] == b.intents[i.id]
       <==> b.intents[i.id] == i.(status := CanceledIntent) && ConfirmsNoFill(i, read)
  {
    hide P.SettleManualOrder, P.ReleaseOrderReservation, Contradicts, HasBasis;
  }

  // It takes an accounted intent back, unless the exchange confirms the very booking again.
  lemma WaitingSettlementKeepsAccountedIff(b: Books, i: Intent, mode: P.SettlementMode, read: Option<Order>)
    requires i.evidence.Some? && i.id in b.intents && IsAccounted(b.intents[i.id].status)
    ensures Done(b, SettleEffect(b.portfolio, i, mode, read)).intents[i.id] == b.intents[i.id]
       <==> b.intents[i.id] == i.(status := AccountedBy(mode)) && ConfirmsBooking(b.portfolio, i, mode, read)
  {
    hide P.SettleReserved, P.ReleaseOrderReservation, Contradicts, HasBasis, SameExternalOrderId;
  }

  // It never leaves a void intent void.
  lemma WaitingSettlementNeverKeepsVoid(b: Books, i: Intent, mode: P.SettlementMode, read: Option<Order>)
    requires i.evidence.Some? && i.id in b.intents && b.intents[i.id].status == VoidIntent
    ensures Done(b, SettleEffect(b.portfolio, i, mode, read)).intents[i.id] != b.intents[i.id]
  {
    hide P.SettleManualOrder, P.ReleaseOrderReservation, Contradicts, HasBasis;
  }

  // It writes its own evidence back, so the kind of the recorded evidence is kept exactly when
  // the evidence it read was of that kind.
  lemma WaitingSettlementKeepsEvidenceIff(b: Books, i: Intent, mode: P.SettlementMode, read: Option<Order>)
    requires i.evidence.Some? && i.id in b.intents
    ensures var c := Done(b, SettleEffect(b.portfolio, i, mode, read));
            && c.intents[i.id].evidence == i.evidence
            && (ClassOf(c.intents[i.id].evidence) == ClassOf(b.intents[i.id].evidence)
                <==> ClassOf(i.evidence) == ClassOf(b.intents[i.id].evidence))
  {
    hide P.SettleManualOrder, P.ReleaseOrderReservation, Contradicts, HasBasis;
  }

  predicate KeepsFinal(b: Books, s: Settling, read: Option<Order>)
    requires s.intent.evidence.Some? && s.intent.id in b.intents
  {
    var i, j := s.intent, b.intents[s.intent.id];
    && j.status != VoidIntent
    && (j.status == CanceledIntent ==> j == i.(status := CanceledIntent) && ConfirmsNoFill(i, read))
    && (IsAccounted(j.status) ==>
          j == i.(status := AccountedBy(s.mode)) && ConfirmsBooking(b.portfolio, i, s.mode, read))
    && (ClassOf(j.evidence) != StillOpen ==> ClassOf(i.evidence) == ClassOf(j.evidence))
  }

  // The event is not the end of a settlement that waited for this intent, or one that keeps what
  // is final in it.
  predicate Harmless(w: World, e: Event, id: string) {
    e.Finish? && e.task in w.settling && w.settling[e.task].intent.id == id && id in w.books.intents
    && w.settling[e.task].intent.evidence.Some? && !e.dies && Readable(w.books.intents)
    ==> KeepsFinal(w.books, w.settling[e.task], e.read)
  }

  lemma FinishStaysFinalIff(w: World, e: Event, id: string)
    requires Keyed(w) && id in w.books.intents && e.Finish?
    ensures id in Next(w, e).books.intents
    ensures StaysFinal(w.books.intents[id], Next(w, e).books.intents[id]) <==> Harmless(w, e, id)
  {
    if e.task in w.settling && w.settling[e.task].intent.evidence.Some? {
      var s := w.settling[e.task];
      var i := s.intent;
      SettleBooksTheRead(w.books.portfolio, i, s.mode, e.read);
      hide SettleEffect, ConfirmsNoFill, ConfirmsBooking, Readable, ClassOf;
      WaitingSettlementKeepsEvidenceIff(w.books, i, s.mode, e.read);
      if w.books.intents[i.id].status == CanceledIntent {
        WaitingSettlementKeepsCancellationIff(w.books, i, s.mode, e.read);
      }
      if IsAccounted(w.books.intents[i.id].status) { WaitingSettlementKeepsAccountedIff(w.books, i, s.mode, e.read); }
      if w.books.intents[i.id].status == VoidIntent { WaitingSettlementNeverKeepsVoid(w.books, i, s.mode, e.read); }
    }
  }

  // ---- Whole histories ----

  // What is final in an intent is still there after the history, except that a recovery pass may
  // have given it the status of its booking meanwhile.
  ghost predicate Matures(w: World, es: seq<Event>, id: string)
    requires id in w.books.intents
  {
    var v := Run(w, es);
    && id in v.books.intents
    && var i, j := w.books.intents[id], v.books.intents[id];
       && (IsTerminalIntent(i.status) ==> j == i || (FinalizedMeanwhile(w, es, id) && IsBooked(v.books, id, i, j)))
       && (ClassOf(i.evidence) != StillOpen ==> ClassOf(j.evidence) == ClassOf(i.evidence))
  }

  predicate IsBooked(b: Books, id: string, i: Intent, j: Intent) {
    id in b.portfolio.settlements && j == i.(status := AccountedBy(b.portfolio.settlements[id].mode))
  }

  // Some recovery pass met the intent with a booking and without its status.
  ghost predicate FinalizedMeanwhile(w: World, es: seq<Event>, id: string) {
    exists k :: 0 <= k < |es| && es[k].Reconcile? && Unfinalized(Run(w, es[..k]).books, id)
  }

  lemma NothingYet(w: World, id: string)
    requires id in w.books.intents
    ensures Matures(w, [], id)
  {
    hide Next;
  }

  lemma StillFinalizedMeanwhile(w: World, es: seq<Event>, e: Event, id: string)
    requires FinalizedMeanwhile(w, es, id)
    ensures FinalizedMeanwhile(w, es + [e], id)
  {
    hide Run, Unfinalized;
    var k :| 0 <= k < |es| && es[k].Reconcile? && Unfinalized(Run(w, es[..k]).books, id);
    assert (es + [e])[k] == es[k] && (es + [e])[..k] == es[..k];
  }

  // What one event leaves of an intent, as far as it is final.
  ghost predicate Keeps(v: World, e: Event, id: string)
    requires id in v.books.intents
  {
    var u := Next(v, e);
    && id in u.books.intents
    && (id in v.books.portfolio.settlements ==>
          id in u.books.portfolio.settlements && u.books.portfolio.settlements[id] == v.books.portfolio.settlements[id])
    && (StaysFinal(v.books.intents[id], u.books.intents[id])
        || (e.Reconcile? && Unfinalized(v.books, id) && u.books.intents[id] == Finalized(v.books, id)))
  }

  lemma HarmlessKeeps(v: World, e: Event, id: string)
    requires Keyed(v) && id in v.books.intents && Harmless(v, e, id)
    ensures Keeps(v, e, id)
  {
    NextExtends(v, e);
    hide Next, Keyed, Unfinalized;
    if e.Reconcile? {
      ReconcileFinalizes(v, e.after, id);
    } else if e.Finish? {
      FinishStaysFinalIff(v, e, id);
    } else {
      OperationStaysFinal(v, e, id);
    }
  }

  // One more event.
  lemma MaturesOn(w: World, es: seq<Event>, e: Event, id: string)
    requires Keyed(Run(w, es)) && id in w.books.intents && Matures(w, es, id) && Harmless(Run(w, es), e, id)
    ensures Matures(w, es + [e], id)
  {
    var v := Run(w, es);
    assert (es + [e])[..|es|] == es && (es + [e])[|es|] == e && Run(w, es + [e]) == Next(v, e);
    HarmlessKeeps(v, e, id);
    hide Next, Run, Keyed, Harmless;
    if FinalizedMeanwhile(w, es, id) { StillFinalizedMeanwhile(w, es, e, id); }
    if e.Reconcile? && Unfinalized(v.books, id) { assert FinalizedMeanwhile(w, es + [e], id); }
    hide FinalizedMeanwhile;
  }

  ghost predicate AllHarmless(w: World, es: seq<Event>, id: string) {
    forall k :: 0 <= k < |es| ==> Harmless(Run(w, es[..k]), es[k], id)
  }

  lemma AllButLast(w: World, es: seq<Event>, id: string)
    requires es != [] && AllHarmless(w, es, id)
    ensures AllHarmless(w, es[..|es| - 1], id) && Harmless(Run(w, es[..|es| - 1]), es[|es| - 1], id)
  {
    var init := es[..|es| - 1];
    hide Run, Harmless;
    assert forall k :: 0 <= k < |init| ==> init[..k] == es[..k] && init[k] == es[k];
  }

  // Through every operation, crash, recovery pass and other accounting, as long as each
  // settlement that waited for the intent ends harmlessly: finished intents never change again,
  // but for the recovery of a booking, and final evidence keeps its kind.
  lemma {:induction false} LifecycleIsMonotone(w: World, es: seq<Event>, id: string)
    requires Keyed(w) && id in w.books.intents
    requires AllHarmless(w, es, id)
    ensures Keyed(Run(w, es)) && Matures(w, es, id)
    decreases |es|
  {
    hide AllHarmless, Next, Keyed, Harmless, Matures;
    if es == [] {
      NothingYet(w, id);
    } else {
      var init, e := es[..|es| - 1], es[|es| - 1];
      AllButLast(w, es, id);
      LifecycleIsMonotone(w, init, id);
      NextIsKeyed(Run(w, init), e);
      MaturesOn(w, init, e, id);
      assert init + [e] == es;
    }
  }

  lemma {:induction false} RunIsKeyed(w: World, es: seq<Event>, id: string)
    requires Keyed(w) && id in w.books.intents
    ensures Keyed(Run(w, es)) && id in Run(w, es).books.intents
    decreases |es|
  {
    if es != [] {
      RunIsKeyed(w, es[..|es| - 1], id);
      NextIsKeyed(Run(w, es[..|es| - 1]), es[|es| - 1]);
      NextExtends(Run(w, es[..|es| - 1]), es[|es| - 1]);
      hide Next, Keyed;
    }
  }

  ghost predicate StepStaysFinal(w: World, e: Event, id: string) {
    || e.Reconcile?
    || (id in w.books.intents && id in Next(w, e).books.intents
        && StaysFinal(w.books.intents[id], Next(w, e).books.intents[id]))
  }

  // The condition is exact: the settlements end harmlessly if and only if no step but a recovery
  // pass takes anything final back.
  lemma LifecycleIsMonotoneIff(w: World, es: seq<Event>, id: string)
    requires Keyed(w) && id in w.books.intents
    ensures AllHarmless(w, es, id) <==> forall k :: 0 <= k < |es| ==> StepStaysFinal(Run(w, es[..k]), es[k], id)
  {
    forall k | 0 <= k < |es|
      ensures Harmless(Run(w, es[..k]), es[k], id) <==> StepStaysFinal(Run(w, es[..k]), es[k], id)
    {
      RunIsKeyed(w, es[..k], id);
      HarmlessIff(Run(w, es[..k]), es[k], id);
    }
    hide Harmless, StepStaysFinal, Run, Keyed;
  }

  lemma HarmlessIff(w: World, e: Event, id: string)
    requires Keyed(w) && id in w.books.intents
    ensures Harmless(w, e, id) <==> StepStaysFinal(w, e, id)
  {
    if e.Finish? {
      FinishStaysFinalIff(w, e, id);
    } else if !e.Reconcile? {
      OperationStaysFinal(w, e, id);
    }
    hide Next, Keyed, KeepsFinal, StaysFinal;
  }

  // ---- A rule under which every settlement ends harmlessly ----

  predicate Waits(w: World, t: nat, id: string) {
    t in w.settling && w.settling[t].intent.id == id
  }

  // At most one settlement waits for the intent, and it works on the intent as it is.
  ghost predicate Alone(w: World, id: string) {
    && (forall t :: Waits(w, t, id) ==>
          id in w.books.intents && w.books.intents[id] == w.settling[t].intent && CanSettle(w.settling[t].intent))
    && (forall t, u :: Waits(w, t, id) && Waits(w, u, id) ==> t == u)
  }

  // The event is for an intent that a settlement waits for.
  ghost predicate Overlaps(w: World, e: Event, id: string) {
    && (exists t :: Waits(w, t, id))
    && (e.Reconcile? || ((e.Confirm? || e.Record? || e.Begin? || e.Cancel?) && e.id == id))
  }

  lemma AloneIsKept(w: World, e: Event, id: string)
    requires Keyed(w) && Alone(w, id) && !Overlaps(w, e, id)
    ensures Harmless(w, e, id) && Alone(Next(w, e), id)
  {
    if e.Finish? {
      FinishLeavesAlone(w, e, id);
    } else {
      hide Next, CanSettle, KeepsFinal, SameTerms;
      SettlingChanges(w, e);
      var v := Next(w, e);
      if u :| Waits(w, u, id) {
        UntouchedIntent(w, e, id);
        forall t | Waits(v, t, id) ensures Waits(w, t, id) && v.settling[t] == w.settling[t] {}
      } else {
        forall t | Waits(v, t, id) ensures e.Begin? && t == e.task && e.id == id {
          assert !Waits(w, t, id);
        }
      }
    }
  }

  // Only an overlapping event changes an intent that a settlement waits for.
  lemma UntouchedIntent(w: World, e: Event, id: string)
    requires Keyed(w) && id in w.books.intents && !e.Finish? && !e.Reconcile?
    requires (e.Confirm? || e.Record? || e.Begin? || e.Cancel?) ==> e.id != id
    ensures id in Next(w, e).books.intents && Next(w, e).books.intents[id] == w.books.intents[id]
  {
    hide Readable, ValidateStructural, ProgressConflict, Apply, CanSettle, IsTerminalIntent, ReportsFill;
    hide P.ReserveOrder, P.ReleaseOrderReservation;
  }

  lemma FinishLeavesAlone(w: World, e: Event, id: string)
    requires Keyed(w) && Alone(w, id) && e.Finish?
    ensures Harmless(w, e, id) && Alone(Next(w, e), id)
  {
    hide Readable, SettleEffect, ValidateAgainstExchange, ConfirmsNoFill, ConfirmsBooking, ClassOf, WithinProposal;
    if e.task in w.settling && w.settling[e.task].intent.evidence.Some? {
      SettleBooksTheRead(w.books.portfolio, w.settling[e.task].intent, w.settling[e.task].mode, e.read);
    }
    assert Waits(w, e.task, id) <==> e.task in w.settling && w.settling[e.task].intent.id == id;
    forall t | Waits(Next(w, e), t, id) ensures Waits(w, t, id) && Next(w, e).settling[t] == w.settling[t] {}
  }

  ghost predicate NoOverlaps(w: World, es: seq<Event>, id: string) {
    forall k :: 0 <= k < |es| ==> !Overlaps(Run(w, es[..k]), es[k], id)
  }

  lemma NoneBeforeTheLast(w: World, es: seq<Event>, id: string)
    requires es != [] && NoOverlaps(w, es, id)
    ensures NoOverlaps(w, es[..|es| - 1], id) && !Overlaps(Run(w, es[..|es| - 1]), es[|es| - 1], id)
  {
    var init := es[..|es| - 1];
    hide Run, Overlaps;
    assert forall k :: 0 <= k < |init| ==> init[..k] == es[..k] && init[k] == es[k];
  }

  // When nothing is started on an intent while a settlement waits for it, and no recovery pass
  // runs then, its lifecycle is monotone whatever the exchange answers.
  lemma {:induction false} SerializedLifecycleIsMonotone(w: World, es: seq<Event>, id: string)
    requires Keyed(w) && id in w.books.intents && Alone(w, id)
    requires NoOverlaps(w, es, id)
    ensures Keyed(Run(w, es)) && Alone(Run(w, es), id) && Matures(w, es, id)
    decreases |es|
  {
    hide NoOverlaps, Next, Keyed, Harmless, Overlaps, Alone, Matures;
    if es == [] {
      NothingYet(w, id);
    } else {
      var init, e := es[..|es| - 1], es[|es| - 1];
      NoneBeforeTheLast(w, es, id);
      SerializedLifecycleIsMonotone(w, init, id);
      NextIsKeyed(Run(w, init), e);
      AloneIsKept(Run(w, init), e, id);
      MaturesOn(w, init, e, id);
      assert init + [e] == es;
    }
  }

  // ---- Purchases without a reservation ----

  // It never books a canceled purchase, whose reservation is gone; a canceled sale it still can.
  lemma CanceledPurchaseIsNotBooked(p: P.Portfolio, i: Intent, mode: P.SettlementMode, read: Option<Order>)
    requires i.evidence.Some? && i.side == Buy && !p.HasActiveReservation(i.id) && i.id !in p.settlements
    ensures SettleEffect(p, i, mode, read).portfolio.settlements == p.settlements
    ensures !IsAccounted(SettleEffect(p, i, mode, read).intent.status)
  {
    hide P.ApplyFill, Mul, Contradicts, HasBasis;
    SettleBooksTheRead(p, i, mode, read);
  }

  // ---- Evidence that closes the store ----

  // The bridge accepts a negative filled quantity that its store refuses to load again: accepted
  // evidence leaves the store readable exactly when the quantity it reports is not negative.
  lemma EvidenceKeepsStoreReadableIff(b: Books, id: string, e: Evidence)
    requires EvidenceEffect(b, id, e).Some? && b.intents[id].id == id
    ensures Readable(Done(b, EvidenceEffect(b, id, e).value).intents)
       <==> e.filledQuantity.None? || e.filledQuantity.value >= 0
  {
    hide ProgressConflict;
    var c := Done(b, EvidenceEffect(b, id, e).value);
    assert Loadable(b.intents[id]);
    if e.filledQuantity.Some? && e.filledQuantity.value < 0 {
      assert !Loadable(c.intents[id]);
    }
  }

  // An intent that takes evidence takes a negative quantity exactly while no final fill is recorded.
  lemma NegativeFillIsAcceptedIff(b: Books, id: string, e: Evidence)
    requires EvidenceEffect(b, id, e).Some?
    ensures ClassOf(b.intents[id].evidence) != Final(false)
       <==> EvidenceEffect(b, id, e.(filledQuantity := Some(-1))).Some?
  {
    hide Readable;
  }

  // From then on no operation of the bridge writes an intent again.
  lemma {:induction false} UnreadableStoreStaysAsItIs(w: World, es: seq<Event>)
    requires !Readable(w.books.intents)
    ensures Run(w, es).books.intents == w.books.intents
    decreases |es|
  {
    if es != [] {
      UnreadableStoreStaysAsItIs(w, es[..|es| - 1]);
      hide Readable, SettleEffect, Apply, Reconciled, ValidateStructural;
    }
  }
}
