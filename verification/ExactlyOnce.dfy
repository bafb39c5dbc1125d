/**
 Exactly-once submission, in every interleaving and with a crash anywhere: `placeOrder` is called
 at most once per client order id, only for an order with a ledger record and within the
 configured scope, and a submission gives a reservation back only when the exchange was never
 called for the order or rejected it definitely. None of this depends on the lock.
 */
module ExactlyOnce {
  import opened Orders
  import opened ManagedStore
  import opened SubmissionRules
  import opened ObserverRules
  import opened SubmissionProtocol

  ghost predicate Distinct(s: seq<string>) {
    forall i, j :: 0 <= i < j < |s| ==> s[i] != s[j]
  }

  // ---- The invariant, one conjunct at a time ----

  ghost predicate Keyed(w: World) {
    && (forall id :: id in w.orders ==> w.orders[id].clientOrderId == id)
    && (forall id :: id in w.minted ==> IsLiveId(id) && w.minted[id].order.clientOrderId == id)
  }

  // Every section works on an order of its own process.
  ghost predicate Issued(w: World) {
    forall t :: t in w.sections ==> IssuedTo(w, w.sections[t])
  }

  predicate IssuedTo(w: World, s: Section) {
    s.order.clientOrderId in w.minted && w.minted[s.order.clientOrderId] == Mint(s.process, s.order)
  }

  // A process executes one section at a time between two awaits.
  ghost predicate SingleThreaded(w: World) {
    forall t, u :: t in w.sections && u in w.sections && t != u && w.sections[t].process == w.sections[u].process
      ==> !Sync(w.sections[t].stage) || !Sync(w.sections[u].stage)
  }

  // Before the CREATED record nothing of the id exists; after the call it is in the history.
  predicate StageMatches(cfg: Config, w: World, s: Section) {
    var id := s.order.clientOrderId;
    match s.stage
    case Validating => true
    case Checked => InScope(cfg, s.order)
    case Claimed => InScope(cfg, s.order) && id !in w.orders && id !in w.calls
    case Funded => InScope(cfg, s.order) && id !in w.orders && id !in w.calls
    case Persisted => InScope(cfg, s.order) && id in w.orders && id !in w.calls
    case Answered(answer) => answer.DefiniteRejection? ==> id in w.rejected
    case Refunded => id in w.rejected
    case Awaiting => true
    case Fallback => true
    case Closing => true
  }

  ghost predicate Staged(cfg: Config, w: World) {
    forall t :: t in w.sections ==> StageMatches(cfg, w, w.sections[t])
  }

  ghost predicate CallsRecorded(cfg: Config, w: World) {
    && Distinct(w.calls)
    && forall id :: id in w.calls ==> id in w.orders && id in w.minted && InScope(cfg, w.minted[id].order)
  }

  ghost predicate Orderly(cfg: Config, w: World) {
    Keyed(w) && Issued(w) && SingleThreaded(w) && Staged(cfg, w) && CallsRecorded(cfg, w)
  }

  // ---- What one stretch of a section changes ----

  ghost predicate OthersStay(w: World, v: World, t: Task) {
    forall u :: u != t ==>
      && (u in v.sections <==> u in w.sections)
      && (u in v.sections ==> v.sections[u] == w.sections[u])
  }

  ghost predicate LedgerGrowsAt(w: World, v: World, id: string) {
    && v.minted == w.minted && v.rejected == w.rejected
    && w.orders.Keys <= v.orders.Keys <= w.orders.Keys + {id}
    && (forall i :: i in v.orders && i != id ==> v.orders[i] == w.orders[i])
    && (id in v.orders ==> v.orders[id].clientOrderId == id || (id in w.orders && v.orders[id] == w.orders[id]))
  }

  // The section itself keeps its order and moves to a stage that fits what was written.
  ghost predicate Moved(cfg: Config, w: World, v: World, t: Task)
    requires t in w.sections
  {
    t in v.sections ==>
      var s, s' := w.sections[t], v.sections[t];
      s'.order == s.order && s'.process == s.process && (Sync(s'.stage) ==> Sync(s.stage)) && StageMatches(cfg, v, s')
  }

  ghost predicate Stretch(cfg: Config, w: World, v: World, t: Task)
    requires t in w.sections
  {
    var s := w.sections[t];
    && OthersStay(w, v, t) && LedgerGrowsAt(w, v, s.order.clientOrderId) && Moved(cfg, w, v, t)
    && v.calls == (if s.stage.Persisted? then w.calls + [s.order.clientOrderId] else w.calls)
    && (v.orders == w.orders || Sync(s.stage))
  }

  lemma CheckIsStretch(cfg: Config, w: World, t: Task)
    requires t in w.sections && w.sections[t].stage.Checked? && StageMatches(cfg, w, w.sections[t])
    requires CallsRecorded(cfg, w)
    ensures Stretch(cfg, w, Check(cfg, w, t), t)
  {
    hide InScope, GuardBlock;
  }

  lemma FundIsStretch(cfg: Config, w: World, t: Task, canSave: bool, canRelease: bool)
    requires t in w.sections && w.sections[t].stage.Claimed? && StageMatches(cfg, w, w.sections[t])
    ensures Stretch(cfg, w, Fund(cfg, w, t, canSave, canRelease), t)
  {
    hide InScope, ReserveQuote, ManagedStore.ReleaseQuote;
  }

  lemma PersistIsStretch(cfg: Config, w: World, t: Task, canSave: bool, canRelease: bool)
    requires t in w.sections && w.sections[t].stage.Funded? && StageMatches(cfg, w, w.sections[t])
    ensures Stretch(cfg, w, Persist(w, t, canSave, canRelease), t)
  {
    hide InScope, ManagedStore.ReleaseQuote;
  }

  lemma RecordIsStretch(cfg: Config, w: World, t: Task, answer: Answer, canSave: bool, canRelease: bool)
    requires t in w.sections && w.sections[t].stage == Answered(answer) && StageMatches(cfg, w, w.sections[t])
    ensures Stretch(cfg, w, Record(cfg, w, t, answer, canSave, canRelease), t)
  {
    hide InScope, ManagedStore.ReleaseQuote;
  }

  lemma SendIsStretch(cfg: Config, w: World, t: Task)
    requires t in w.sections && w.sections[t].stage.Persisted? && StageMatches(cfg, w, w.sections[t])
    ensures Stretch(cfg, w, w.(calls := w.calls + [w.sections[t].order.clientOrderId]).To(t, Awaiting), t)
  {
    hide InScope;
  }

  lemma FinishIsStretch(cfg: Config, w: World, t: Task, record: Order, canSave: bool)
    requires t in w.sections && (w.sections[t].stage.Fallback? || w.sections[t].stage.Refunded?)
    requires record.clientOrderId == w.sections[t].order.clientOrderId
    ensures Stretch(cfg, w, (if canSave then w.Save(record) else w).To(t, Closing), t)
  {
    hide InScope;
  }

  lemma AdvanceIsStretch(cfg: Config, w: World, t: Task, saved: bool, released: bool)
    requires t in w.sections && StageMatches(cfg, w, w.sections[t]) && CallsRecorded(cfg, w)
    ensures Stretch(cfg, w, AdvanceSection(cfg, w, t, saved, released), t)
  {
    hide InScope, Check, Fund, Persist, Record, Outcome;
    var s := w.sections[t];
    var canSave := saved && w.CanWrite(s.process);
    var canRelease := released && w.CanWrite(s.process);
    match s.stage
    case Checked => CheckIsStretch(cfg, w, t);
    case Claimed => FundIsStretch(cfg, w, t, canSave, canRelease);
    case Funded => PersistIsStretch(cfg, w, t, canSave, canRelease);
    case Answered(answer) => RecordIsStretch(cfg, w, t, answer, canSave, canRelease);
    case Persisted => SendIsStretch(cfg, w, t);
    case Fallback =>
      OutcomeKeepsId(s.order, OtherError);
      FinishIsStretch(cfg, w, t, Outcome(s.order, OtherError), canSave);
    case Refunded =>
      OutcomeKeepsId(s.order, DefiniteRejection);
      FinishIsStretch(cfg, w, t, Outcome(s.order, DefiniteRejection), canSave);
    case Validating =>
    case Awaiting =>
    case Closing =>
  }

  lemma OutcomeKeepsId(order: NewOrder, answer: Answer)
    ensures Outcome(order, answer).clientOrderId == order.clientOrderId
  {
  }

  // ---- A stretch keeps the invariant ----

  // Two sections of one order are sections of one process, so only one of them is mid-step.
  lemma OtherSectionStillMatches(cfg: Config, w: World, v: World, t: Task, u: Task)
    requires Issued(w) && SingleThreaded(w) && Staged(cfg, w)
    requires t in w.sections && u in w.sections && u != t && Stretch(cfg, w, v, t)
    ensures StageMatches(cfg, v, w.sections[u])
  {
    hide InScope, Moved;
    assert StageMatches(cfg, w, w.sections[u]);
    assert IssuedTo(w, w.sections[u]) && IssuedTo(w, w.sections[t]);
  }

  lemma StretchKeepsCalls(cfg: Config, w: World, v: World, t: Task)
    requires CallsRecorded(cfg, w) && t in w.sections && Stretch(cfg, w, v, t)
    requires IssuedTo(w, w.sections[t]) && StageMatches(cfg, w, w.sections[t])
    ensures CallsRecorded(cfg, v)
  {
    hide InScope, Moved, OthersStay;
  }

  lemma StretchKeepsOrderly(cfg: Config, w: World, v: World, t: Task)
    requires Orderly(cfg, w) && t in w.sections && Stretch(cfg, w, v, t)
    ensures Orderly(cfg, v)
  {
    assert IssuedTo(w, w.sections[t]) && StageMatches(cfg, w, w.sections[t]);
    StretchKeepsCalls(cfg, w, v, t);
    forall u | u in v.sections ensures StageMatches(cfg, v, v.sections[u]) {
      if u != t { OtherSectionStillMatches(cfg, w, v, t, u); }
    }
    hide StageMatches, CallsRecorded;
    assert Keyed(v);
    assert forall u :: u in v.sections && u != t ==> IssuedTo(w, w.sections[u]);
    assert Issued(v);
    assert SingleThreaded(v);
  }

  // ---- The other events ----

  // A write under an existing key that keeps the id of the record.
  lemma SaveKeepsOrderly(cfg: Config, w: World, order: Order)
    requires Orderly(cfg, w) && order.clientOrderId in w.orders
    ensures Orderly(cfg, w.Save(order))
  {
    hide InScope;
    var v := w.Save(order);
    assert v.orders.Keys == w.orders.Keys;
    assert forall t :: t in w.sections ==> StageMatches(cfg, w, w.sections[t]) && IssuedTo(w, w.sections[t]);
  }

  // One section changes its stage and writes nothing.
  lemma ToKeepsOrderly(cfg: Config, w: World, t: Task, stage: Stage)
    requires Orderly(cfg, w) && w.Runnable(t)
    requires StageMatches(cfg, w, w.sections[t].(stage := stage))
    ensures Orderly(cfg, w.To(t, stage))
  {
    hide InScope;
    var v := w.To(t, stage);
    assert forall u :: u in w.sections ==> StageMatches(cfg, w, w.sections[u]) && IssuedTo(w, w.sections[u]);
    assert CallsRecorded(cfg, v) && Staged(cfg, v);
  }

  lemma EnterKeepsOrderly(cfg: Config, w: World, t: Task, id: string)
    requires Orderly(cfg, w) && CanEnter(w, t, id)
    ensures Orderly(cfg, EnterSection(w, t, id))
  {
    hide InScope, HasInFlight;
    var v := EnterSection(w, t, id);
    assert forall u :: u in w.sections ==> StageMatches(cfg, w, w.sections[u]) && IssuedTo(w, w.sections[u]);
    assert Keyed(v) && Issued(v) && Staged(cfg, v);
    assert CallsRecorded(cfg, v);
    hide StageMatches, CallsRecorded;
    assert SingleThreaded(v);
  }

  lemma MintKeepsOrderly(cfg: Config, w: World, p: Process, order: NewOrder)
    requires Orderly(cfg, w) && CanMint(w, order)
    ensures Orderly(cfg, w.(minted := w.minted[order.clientOrderId := Mint(p, order)]))
  {
    hide InScope;
    assert forall u :: u in w.sections ==> StageMatches(cfg, w, w.sections[u]) && IssuedTo(w, w.sections[u]);
  }

  // An answer notes a rejection and moves the section on.
  function Rejecting(w: World, t: Task, answer: Answer): World
    requires t in w.sections
  {
    var id := w.sections[t].order.clientOrderId;
    w.(rejected := if answer.DefiniteRejection? then w.rejected + {id} else w.rejected)
  }

  lemma AnswerMoves(cfg: Config, w: World, t: Task, answer: Answer)
    ensures Step(cfg, w, Event.Answer(t, answer))
         == if w.Runnable(t) && w.sections[t].stage.Awaiting?
            then Rejecting(w, t, answer).To(t, Answered(answer)) else w
    ensures t in w.sections ==>
              StageMatches(cfg, Rejecting(w, t, answer), w.sections[t].(stage := Answered(answer)))
  {
  }

  lemma AnswerKeepsOrderly(cfg: Config, w: World, t: Task, answer: Answer)
    requires Orderly(cfg, w)
    ensures Orderly(cfg, Step(cfg, w, Event.Answer(t, answer)))
  {
    AnswerMoves(cfg, w, t, answer);
    hide Step, Orderly, StageMatches;
    if w.Runnable(t) && w.sections[t].stage.Awaiting? {
      RejectionKeepsOrderly(cfg, w, Rejecting(w, t, answer));
      ToKeepsOrderly(cfg, Rejecting(w, t, answer), t, Answered(answer));
    }
  }

  lemma RejectionKeepsOrderly(cfg: Config, w: World, v: World)
    requires Orderly(cfg, w) && v == w.(rejected := v.rejected) && w.rejected <= v.rejected
    ensures Orderly(cfg, v)
  {
    hide InScope;
    assert forall u :: u in w.sections ==> StageMatches(cfg, w, w.sections[u]) && IssuedTo(w, w.sections[u]);
  }

  lemma ValidateKeepsOrderly(cfg: Config, w: World, t: Task, seen: Reads)
    requires Orderly(cfg, w)
    ensures Orderly(cfg, Step(cfg, w, Validate(t, seen)))
  {
    if w.Runnable(t) && w.sections[t].stage.Validating? {
      if ValidateOrder(cfg, w.sections[t].order, seen).None? { ValidatedIsInScope(cfg, w.sections[t].order, seen); }
      hide InScope, ValidateOrder;
      ToKeepsOrderly(cfg, w, t, if ValidateOrder(cfg, w.sections[t].order, seen).None? then Checked else Closing);
    }
  }

  // A crash only removes sections, a write of the portfolio or of the lock touches neither the
  // ledger nor the history.
  lemma FewerSectionsKeepOrderly(cfg: Config, w: World, v: World)
    requires Orderly(cfg, w)
    requires v.orders == w.orders && v.minted == w.minted && v.calls == w.calls && v.rejected == w.rejected
    requires forall t :: t in v.sections ==> t in w.sections && v.sections[t] == w.sections[t]
    ensures Orderly(cfg, v)
  {
    hide InScope;
    assert forall u :: u in v.sections ==> StageMatches(cfg, w, w.sections[u]) && IssuedTo(w, w.sections[u]);
  }

  lemma AdvanceKeepsOrderly(cfg: Config, w: World, t: Task, saved: bool, released: bool)
    requires Orderly(cfg, w) && t in w.sections
    ensures Orderly(cfg, AdvanceSection(cfg, w, t, saved, released))
  {
    hide AdvanceSection, StageMatches, Stretch;
    AdvanceIsStretch(cfg, w, t, saved, released);
    StretchKeepsOrderly(cfg, w, AdvanceSection(cfg, w, t, saved, released), t);
  }

  lemma StepKeepsOrderly(cfg: Config, w: World, e: Event)
    requires Orderly(cfg, w)
    ensures Orderly(cfg, Step(cfg, w, e))
  {
    hide CallsRecorded, Staged, SingleThreaded, Issued, CanEnter, EnterSection, AdvanceSection, CanMint, CanAttest,
        KeepsProtected;
    match e
    case Advance(t, saved, released) =>
      if w.Runnable(t) { AdvanceKeepsOrderly(cfg, w, t, saved, released); }
    case MintId(p, order) => if CanMint(w, order) { MintKeepsOrderly(cfg, w, p, order); }
    case Enter(t, id) => if CanEnter(w, t, id) { EnterKeepsOrderly(cfg, w, t, id); }
    case Validate(t, seen) => ValidateKeepsOrderly(cfg, w, t, seen);
    case Answer(t, answer) => AnswerKeepsOrderly(cfg, w, t, answer);
    case Monitor(_, id, authoritative) =>
      if id in w.orders { SaveKeepsOrderly(cfg, w, Adopt(w.orders[id], authoritative)); }
    case Resolve(id, initial, mode, exchange) =>
      if id in w.orders && ResolveCreated(w.orders[id], initial, mode, exchange).Some? {
        SaveKeepsOrderly(cfg, w, ResolveCreated(w.orders[id], initial, mode, exchange).value);
      }
    case Attest(id, _, latest, _, fee) =>
      if id in w.orders { SaveKeepsOrderly(cfg, w, Attested(w.orders[id], latest, fee)); }
    case Crash(_) => FewerSectionsKeepOrderly(cfg, w, Step(cfg, w, e));
    case CrashInside(_) => FewerSectionsKeepOrderly(cfg, w, Step(cfg, w, e));
    case ClearLock => FewerSectionsKeepOrderly(cfg, w, Step(cfg, w, e));
    case ManagedWrite(_, _) => FewerSectionsKeepOrderly(cfg, w, Step(cfg, w, e));
  }

  lemma {:induction false} RunIsOrderly(cfg: Config, w: World, es: seq<Event>)
    requires Start(w)
    ensures Orderly(cfg, Run(cfg, w, es))
    decreases |es|
  {
    if es != [] {
      RunIsOrderly(cfg, w, es[..|es| - 1]);
      StepKeepsOrderly(cfg, Run(cfg, w, es[..|es| - 1]), es[|es| - 1]);
    }
  }

  // ---- The two claims ----

  // At most one call per client order id, each recorded before it was made and within scope.
  lemma ExactlyOnceSubmission(cfg: Config, w: World, es: seq<Event>)
    requires Start(w)
    ensures var v := Run(cfg, w, es);
            && Distinct(v.calls)
            && forall id :: id in v.calls ==> id in v.orders && id in v.minted && InScope(cfg, v.minted[id].order)
  {
    RunIsOrderly(cfg, w, es);
  }

  // A stretch that touches a reservation touches the one of its own order, before the CREATED
  // record or after a definite rejection.
  lemma AdvanceKeepsReservation(cfg: Config, w: World, t: Task, saved: bool, released: bool, id: string)
    requires t in w.sections
    ensures || SameReservation(w.stored, AdvanceSection(cfg, w, t, saved, released).stored, id)
            || (w.sections[t].order.clientOrderId == id && MayRelease(w.sections[t].stage))
  {
    var s := w.sections[t];
    ReleaseLeavesOthers(w.stored, s.order, released && w.CanWrite(s.process), id);
    if s.stage.Claimed? && cfg.Reserves(s.order) {
      ReserveLeavesOthers(w.stored, cfg.reservation.value, s.order, saved && w.CanWrite(s.process), id);
    }
    hide ReserveQuote, ManagedStore.ReleaseQuote, GuardBlock;
  }

  predicate MayRelease(stage: Stage) {
    stage.Claimed? || stage.Funded? || (stage.Answered? && stage.answer.DefiniteRejection?)
  }

  lemma ReleaseIsJustified(cfg: Config, w: World, es: seq<Event>, t: Task, saved: bool, released: bool, id: string)
    requires Start(w)
    requires t in Run(cfg, w, es).sections
    requires var v := Run(cfg, w, es); !SameReservation(v.stored, AdvanceSection(cfg, v, t, saved, released).stored, id)
    ensures Run(cfg, w, es).sections[t].order.clientOrderId == id
    ensures id !in Run(cfg, w, es).calls || id in Run(cfg, w, es).rejected
  {
    RunIsOrderly(cfg, w, es);
    AdvanceKeepsReservation(cfg, Run(cfg, w, es), t, saved, released, id);
    hide InScope, AdvanceSection, SameReservation;
    assert StageMatches(cfg, Run(cfg, w, es), Run(cfg, w, es).sections[t]);
  }

  // Every other ending of a submission leaves the managed portfolio exactly as it is, and records
  // either the acknowledgement or UNKNOWN.
  ghost predicate FundsUntouched(w: World, v: World, t: Task)
    requires t in w.sections
  {
    var s := w.sections[t];
    var id := s.order.clientOrderId;
    && v.stored == w.stored
    && (v.orders == w.orders
        || (exists x :: v.orders == w.orders[id := Recorded(s.order, OrderStatus.Unknown, x)])
        || (s.stage.Answered? && s.stage.answer.Acknowledged?))
  }

  lemma OpenOutcome(cfg: Config, w: World, t: Task, saved: bool, released: bool)
    requires t in w.sections && StageMatches(cfg, w, w.sections[t])
    requires w.sections[t].order.clientOrderId in w.calls && w.sections[t].order.clientOrderId !in w.rejected
    requires w.sections[t].order.clientOrderId in w.orders
    ensures FundsUntouched(w, AdvanceSection(cfg, w, t, saved, released), t)
  {
    hide InScope, GuardBlock;
  }

  lemma OpenOutcomeLeavesFunds(cfg: Config, w: World, es: seq<Event>, t: Task, saved: bool, released: bool)
    requires Start(w) && t in Run(cfg, w, es).sections
    requires Run(cfg, w, es).sections[t].order.clientOrderId in Run(cfg, w, es).calls
    requires Run(cfg, w, es).sections[t].order.clientOrderId !in Run(cfg, w, es).rejected
    ensures FundsUntouched(Run(cfg, w, es), AdvanceSection(cfg, Run(cfg, w, es), t, saved, released), t)
  {
    RunIsOrderly(cfg, w, es);
    hide InScope, AdvanceSection, FundsUntouched;
    OpenOutcome(cfg, Run(cfg, w, es), t, saved, released);
  }
}
