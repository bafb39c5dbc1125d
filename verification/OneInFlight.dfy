/**
 One in flight: while no section starts inside another one of its own process, the ledger never
 holds two unresolved live orders, the exchange is called only for an order that the ledger
 holds as CREATED and whose exact cost is reserved, and those funds stay reserved as long as the
 outcome is open. src/persistence/lock.ts does let a section start that way; `LockReentry` shows
 that every such start that matters can break the guard.
 */
module OneInFlight {
  import opened Wrappers
  import opened Orders
  import opened ManagedStore
  import opened SubmissionRules
  import opened ObserverRules
  import opened SubmissionProtocol
  import opened ExactlyOnce

  // An order that no check of a submission refuses for what the order itself says.
  predicate Placeable(cfg: Config, order: NewOrder) {
    InScope(cfg, order) && (cfg.Reserves(order) ==> QuoteCost(order, cfg.reservation.value) > 0)
  }

  // A new, placeable order enters while its own process already holds the lock.
  predicate Overlap(cfg: Config, w: World, t: Task, id: string) {
    CanEnter(w, t, id) && w.minted[id].process in w.held && id !in w.orders && Placeable(cfg, w.minted[id].order)
  }

  ghost predicate Disciplined(cfg: Config, w: World, es: seq<Event>) {
    forall i :: 0 <= i < |es| && es[i].Enter? ==> !Overlap(cfg, Run(cfg, w, es[..i]), es[i].task, es[i].id)
  }

  // ---- The invariant ----

  // The lock file names the only process that believes it holds the lock, and at most one
  // section will remove it.
  ghost predicate OneOwner(w: World) {
    && (forall p :: p in w.held ==> w.lockFile == Some(p))
    && (forall t :: t in w.sections && w.sections[t].owner ==> w.sections[t].process in w.held)
    && (forall t, u :: t in w.sections && u in w.sections && w.sections[t].owner && w.sections[u].owner ==> t == u)
  }

  // A nested section never reaches its CREATED record.
  predicate Harmless(cfg: Config, w: World, s: Section) {
    || s.stage.Closing?
    || ((s.stage.Validating? || s.stage.Checked?) && s.order.clientOrderId in w.orders)
    || ((s.stage.Validating? || s.stage.Checked? || s.stage.Claimed?) && !Placeable(cfg, s.order))
  }

  predicate CostReserved(cfg: Config, stored: Stored, order: NewOrder) {
    cfg.Reserves(order) ==> FullyReserved(stored, cfg.reservation.value, order)
  }

  // The section's CREATED record stands, alone in flight and never identified.
  ghost predicate StandsAlone(w: World, order: NewOrder) {
    && order.clientOrderId in w.orders && w.orders[order.clientOrderId] == Recorded(order, Created, None)
    && order.clientOrderId !in w.identified
    && (forall id :: InFlight(w.orders, id) ==> id == order.clientOrderId)
  }

  ghost predicate OwnerMatches(cfg: Config, w: World, s: Section) {
    match s.stage
    case Validating => !HasInFlight(w.orders)
    case Checked => !HasInFlight(w.orders)
    case Claimed => !HasInFlight(w.orders)
    case Funded => !HasInFlight(w.orders) && CostReserved(cfg, w.stored, s.order)
    case Persisted => StandsAlone(w, s.order) && CostReserved(cfg, w.stored, s.order)
    case Awaiting => StandsAlone(w, s.order)
    case Answered(_) => StandsAlone(w, s.order)
    case Fallback => StandsAlone(w, s.order)
    case Refunded => StandsAlone(w, s.order)
    case Closing => true
  }

  ghost predicate Matches(cfg: Config, w: World, s: Section) {
    if s.owner then OwnerMatches(cfg, w, s) else Harmless(cfg, w, s)
  }

  ghost predicate Guarded(cfg: Config, w: World) {
    && Orderly(cfg, w) && OneOwner(w) && AtMostOneInFlight(w.orders) && w.identified <= w.orders.Keys
    && (forall t :: t in w.sections ==> Matches(cfg, w, w.sections[t]))
  }

  // ---- One stretch of a section ----

  // The portfolio changes at most by the release of the order's own reservation, before its record.
  predicate OnlyOwnRelease(w: World, v: World, s: Section) {
    v.stored == w.stored || (s.stage.Claimed? && v.stored == ManagedStore.ReleaseQuote(w.stored, s.order, true))
  }

  ghost predicate NestedStretch(cfg: Config, w: World, v: World, t: Task)
    requires t in w.sections
  {
    && v.orders == w.orders && v.identified == w.identified && v.lockFile == w.lockFile && v.held == w.held
    && v.calls == w.calls && OnlyOwnRelease(w, v, w.sections[t])
    && (t in v.sections ==> !v.sections[t].owner && Harmless(cfg, v, v.sections[t]))
  }

  lemma AdvanceOfNested(cfg: Config, w: World, t: Task, saved: bool, released: bool)
    requires t in w.sections && !w.sections[t].owner
    requires Harmless(cfg, w, w.sections[t]) && StageMatches(cfg, w, w.sections[t])
    ensures NestedStretch(cfg, w, AdvanceSection(cfg, w, t, saved, released), t)
  {
    var s := w.sections[t];
    if s.stage.Claimed? {
      NestedIsRefused(cfg, w, t, saved && w.CanWrite(s.process), released && w.CanWrite(s.process));
    }
    hide InScope, Fund, Persist, Record, GuardBlock, Placeable, ManagedStore.ReleaseQuote;
  }

  lemma NestedIsRefused(cfg: Config, w: World, t: Task, canSave: bool, canRelease: bool)
    requires t in w.sections && InScope(cfg, w.sections[t].order) && !Placeable(cfg, w.sections[t].order)
    ensures Fund(cfg, w, t, canSave, canRelease) == w.Release(w.sections[t].order, canRelease).To(t, Closing)
    ensures !canRelease ==> w.Release(w.sections[t].order, canRelease) == w
  {
    BlockedWithoutCost(w.stored, cfg.reservation.value, w.sections[t].order, canSave);
    hide InScope, ReserveQuote;
  }

  // The owner's stretch: its lock, its stage and the record it stands on.
  lemma AdvanceOfOwner(cfg: Config, w: World, t: Task, saved: bool, released: bool)
    requires t in w.sections && w.sections[t].owner && AtMostOneInFlight(w.orders) && w.identified <= w.orders.Keys
    requires OwnerMatches(cfg, w, w.sections[t]) && StageMatches(cfg, w, w.sections[t])
    ensures var v := AdvanceSection(cfg, w, t, saved, released);
            && AtMostOneInFlight(v.orders) && v.identified <= v.orders.Keys
            && (t in v.sections ==>
                  v.sections[t].owner && OwnerMatches(cfg, v, v.sections[t]) && v.lockFile == w.lockFile
                      && v.held == w.held)
            && (t !in v.sections ==> v.lockFile.None? && v.held == w.held - {w.sections[t].process})
  {
    var s := w.sections[t];
    var canSave := saved && w.CanWrite(s.process);
    var canRelease := released && w.CanWrite(s.process);
    hide InScope, ManagedStore.ReleaseQuote, ReserveQuote, GuardBlock, Fund, Persist, Record;
    match s.stage
    case Claimed => FundOfOwner(cfg, w, t, canSave, canRelease);
    case Funded => PersistOfOwner(cfg, w, t, canSave, canRelease);
    case Answered(answer) => RecordOfOwner(cfg, w, t, answer, canSave, canRelease);
    case Fallback => if canSave { SaveOwn(w, s.order, Outcome(s.order, OtherError)); }
    case Refunded => if canSave { SaveOwn(w, s.order, Outcome(s.order, DefiniteRejection)); }
    case Validating =>
    case Checked =>
    case Persisted =>
    case Awaiting =>
    case Closing =>
      hide StandsAlone, CostReserved, HasInFlight;
  }

  lemma FundOfOwner(cfg: Config, w: World, t: Task, canSave: bool, canRelease: bool)
    requires t in w.sections && w.sections[t].owner && !HasInFlight(w.orders)
    ensures var v := Fund(cfg, w, t, canSave, canRelease);
            && v.orders == w.orders && v.identified == w.identified && v.lockFile == w.lockFile && v.held == w.held
            && t in v.sections && v.sections[t].owner && OwnerMatches(cfg, v, v.sections[t])
  {
    var s := w.sections[t];
    if cfg.Reserves(s.order) && ReserveQuote(w.stored, cfg.reservation.value, s.order, canSave).1.None? {
      ReservedByFund(w.stored, cfg.reservation.value, s.order, canSave);
    }
    hide ReserveQuote, ManagedStore.ReleaseQuote, FullyReserved, HasInFlight;
  }

  lemma PersistOfOwner(cfg: Config, w: World, t: Task, canSave: bool, canRelease: bool)
    requires t in w.sections && w.sections[t].owner && !HasInFlight(w.orders)
        && CostReserved(cfg, w.stored, w.sections[t].order)
    requires w.identified <= w.orders.Keys && w.sections[t].order.clientOrderId !in w.orders
    ensures var v := Persist(w, t, canSave, canRelease);
            && v.lockFile == w.lockFile && v.held == w.held && v.identified <= v.orders.Keys
            && AtMostOneInFlight(v.orders)
            && t in v.sections && v.sections[t].owner && OwnerMatches(cfg, v, v.sections[t])
  {
    hide FullyReserved, ManagedStore.ReleaseQuote;
    var v := Persist(w, t, canSave, canRelease);
    var id := w.sections[t].order.clientOrderId;
    assert forall i :: InFlight(v.orders, i) && i != id ==> InFlight(w.orders, i);
  }

  // The record in flight is replaced by another one of the same order.
  lemma SaveOwn(w: World, order: NewOrder, record: Order)
    requires StandsAlone(w, order) && record.clientOrderId == order.clientOrderId && w.identified <= w.orders.Keys
    ensures AtMostOneInFlight(w.Save(record).orders) && w.Save(record).identified <= w.Save(record).orders.Keys
  {
    var v := w.Save(record);
    assert forall i :: InFlight(v.orders, i) && i != order.clientOrderId ==> InFlight(w.orders, i);
  }

  lemma RecordOfOwner(cfg: Config, w: World, t: Task, answer: Answer, canSave: bool, canRelease: bool)
    requires t in w.sections && w.sections[t].owner && StandsAlone(w, w.sections[t].order)
    requires w.identified <= w.orders.Keys && AtMostOneInFlight(w.orders)
    ensures var v := Record(cfg, w, t, answer, canSave, canRelease);
            && v.lockFile == w.lockFile && v.held == w.held && v.identified <= v.orders.Keys
            && AtMostOneInFlight(v.orders)
            && t in v.sections && v.sections[t].owner && OwnerMatches(cfg, v, v.sections[t])
  {
    SaveOwn(w, w.sections[t].order, Outcome(w.sections[t].order, answer));
    hide ManagedStore.ReleaseQuote, AtMostOneInFlight;
  }

  // The other sections are untouched by a stretch of the owner, because they are nested.
  lemma AdvanceKeepsGuarded(cfg: Config, w: World, t: Task, saved: bool, released: bool)
    requires Guarded(cfg, w) && w.Runnable(t)
    ensures Guarded(cfg, AdvanceSection(cfg, w, t, saved, released))
  {
    var v := AdvanceSection(cfg, w, t, saved, released);
    assert StageMatches(cfg, w, w.sections[t]);
    AdvanceKeepsOrderly(cfg, w, t, saved, released);
    AdvanceIsStretch(cfg, w, t, saved, released);
    assert Matches(cfg, w, w.sections[t]);
    if w.sections[t].owner {
      AdvanceOfOwner(cfg, w, t, saved, released);
      hide AdvanceSection, Orderly, AtMostOneInFlight, OwnerMatches, Placeable, Moved;
      assert forall u :: u in v.sections && u != t ==> Matches(cfg, w, w.sections[u]);
    } else {
      AdvanceOfNested(cfg, w, t, saved, released);
      forall u | u in v.sections && u != t ensures Matches(cfg, v, v.sections[u]) {
        NestedLeavesOthers(cfg, w, v, t, u);
      }
      hide AdvanceSection, Orderly, AtMostOneInFlight, OwnerMatches, Harmless, Moved;
    }
  }

  // A nested section releases its own id, never the one of an owner that relies on its reservation.
  lemma NestedLeavesOthers(cfg: Config, w: World, v: World, t: Task, u: Task)
    requires Guarded(cfg, w) && w.Runnable(t) && !w.sections[t].owner && u in w.sections && u != t
    requires NestedStretch(cfg, w, v, t)
    ensures Matches(cfg, v, w.sections[u])
  {
    assert Matches(cfg, w, w.sections[u]);
    assert IssuedTo(w, w.sections[u]) && IssuedTo(w, w.sections[t]);
    hide HasInFlight, Placeable, InScope;
    if v.stored != w.stored && w.sections[u].owner && (w.sections[u].stage.Funded? || w.sections[u].stage.Persisted?) {
      ReleaseLeavesOthers(w.stored, w.sections[t].order, true, w.sections[u].order.clientOrderId);
      hide ManagedStore.ReleaseQuote;
      assert w.sections[u].order.clientOrderId != w.sections[t].order.clientOrderId;
    }
  }

  // ---- The other events ----

  lemma EnterKeepsGuarded(cfg: Config, w: World, t: Task, id: string)
    requires Guarded(cfg, w) && CanEnter(w, t, id) && !Overlap(cfg, w, t, id)
    ensures Guarded(cfg, EnterSection(w, t, id))
  {
    EnterKeepsOrderly(cfg, w, t, id);
    EnterKeepsOwner(w, t, id);
    EnteredMatches(cfg, w, t, id);
    var v := EnterSection(w, t, id);
    assert v.orders == w.orders && v.stored == w.stored && v.identified == w.identified;
    assert v.sections == w.sections[t := v.sections[t]];
    hide Orderly, OneOwner, HasInFlight, AtMostOneInFlight, Matches, EnterSection, CanEnter, Overlap;
    forall u | u in w.sections ensures Matches(cfg, v, w.sections[u]) {
      assert Matches(cfg, w, w.sections[u]);
      MatchesFrame(cfg, w, v, w.sections[u]);
    }
  }

  lemma EnterKeepsOwner(w: World, t: Task, id: string)
    requires OneOwner(w) && CanEnter(w, t, id)
    ensures OneOwner(EnterSection(w, t, id))
  {
    hide HasInFlight;
  }

  // The first section of a process owns the lock and finds nothing in flight; another one is nested.
  lemma EnteredMatches(cfg: Config, w: World, t: Task, id: string)
    requires CanEnter(w, t, id) && !Overlap(cfg, w, t, id) && w.minted[id].order.clientOrderId == id
    ensures var v := EnterSection(w, t, id); Matches(cfg, v, v.sections[t])
  {
    hide HasInFlight, Placeable;
  }

  // What a section must match depends on the ledger and the portfolio alone.
  lemma MatchesFrame(cfg: Config, w: World, v: World, s: Section)
    requires v.orders == w.orders && v.identified == w.identified
    requires v.stored == w.stored || !s.owner || (!s.stage.Funded? && !s.stage.Persisted?)
    ensures Matches(cfg, v, s) == Matches(cfg, w, s)
  {
    hide HasInFlight, Placeable, CostReserved;
  }

  lemma ValidateKeepsGuarded(cfg: Config, w: World, t: Task, seen: Reads)
    requires Guarded(cfg, w)
    ensures Guarded(cfg, Step(cfg, w, Validate(t, seen)))
  {
    ValidateKeepsOrderly(cfg, w, t, seen);
    StageChangeKeepsGuarded(cfg, w, Step(cfg, w, Validate(t, seen)), t);
  }

  // Only the stage of one section changes, from an await to what follows it.
  lemma StageChangeKeepsGuarded(cfg: Config, w: World, v: World, t: Task)
    requires Guarded(cfg, w) && Orderly(cfg, v)
    requires v.orders == w.orders && v.stored == w.stored && v.identified == w.identified
    requires v.lockFile == w.lockFile && v.held == w.held
    requires v.sections == w.sections
          || (t in w.sections && t in v.sections
              && v.sections == w.sections[t := w.sections[t].(stage := v.sections[t].stage)]
              && ((w.sections[t].stage.Validating? && (v.sections[t].stage.Checked? || v.sections[t].stage.Closing?))
                  || (w.sections[t].stage.Awaiting? && v.sections[t].stage.Answered?)))
    ensures Guarded(cfg, v)
  {
    hide Orderly, HasInFlight, AtMostOneInFlight, Placeable, CostReserved, StandsAlone;
    forall u | u in w.sections ensures Matches(cfg, v, v.sections[u]) {
      assert Matches(cfg, w, w.sections[u]);
      MatchesFrame(cfg, w, v, v.sections[u]);
    }
  }

  lemma AnswerKeepsGuarded(cfg: Config, w: World, t: Task, answer: Answer)
    requires Guarded(cfg, w)
    ensures Guarded(cfg, Step(cfg, w, Event.Answer(t, answer)))
  {
    AnswerKeepsOrderly(cfg, w, t, answer);
    StageChangeKeepsGuarded(cfg, w, Step(cfg, w, Event.Answer(t, answer)), t);
  }

  // A crash takes the sections and the memory of a process with it.
  lemma CrashKeepsGuarded(cfg: Config, w: World, p: Process, lockFile: Option<Process>)
    requires Guarded(cfg, w)
    requires lockFile == w.lockFile || (w.lockFile.None? && lockFile == Some(p))
    ensures Guarded(cfg, w.Without(p).(lockFile := lockFile))
  {
    var v := w.Without(p).(lockFile := lockFile);
    FewerSectionsKeepOrderly(cfg, w, v);
    hide Orderly, HasInFlight, AtMostOneInFlight, Matches;
    forall u | u in v.sections ensures Matches(cfg, v, v.sections[u]) {
      assert Matches(cfg, w, w.sections[u]);
      MatchesFrame(cfg, w, v, w.sections[u]);
    }
  }

  // An observer replaces the record of an order in flight that no section stands on.
  lemma ObserverSaves(cfg: Config, w: World, record: Order)
    requires Guarded(cfg, w) && record.clientOrderId in w.orders
    requires Unresolved(record.status) && IsLiveId(record.clientOrderId) ==> InFlight(w.orders, record.clientOrderId)
    requires w.lockFile.None?
          || (InFlight(w.orders, record.clientOrderId) && w.orders[record.clientOrderId].status != Created)
    ensures Guarded(cfg, w.Save(record))
  {
    var v := w.Save(record);
    SaveKeepsOrderly(cfg, w, record);
    hide Orderly, Placeable, CostReserved;
    assert forall i :: InFlight(v.orders, i) ==> InFlight(w.orders, i);
    assert !HasInFlight(w.orders) ==> !HasInFlight(v.orders) by {
      if HasInFlight(v.orders) { var i :| i in v.orders && InFlight(v.orders, i); assert InFlight(w.orders, i); }
    }
    forall u | u in w.sections ensures Matches(cfg, v, w.sections[u]) {
      assert Matches(cfg, w, w.sections[u]);
    }
  }

  lemma ManagedWriteKeepsGuarded(cfg: Config, w: World, p: Process, replaced: Stored)
    requires Guarded(cfg, w) && w.LockedBy(p)
    ensures Guarded(cfg, w.(stored := replaced))
  {
    var v := w.(stored := replaced);
    FewerSectionsKeepOrderly(cfg, w, v);
    hide Orderly, HasInFlight, AtMostOneInFlight, Matches;
    forall u | u in w.sections ensures Matches(cfg, v, w.sections[u]) {
      assert Matches(cfg, w, w.sections[u]);
      MatchesFrame(cfg, w, v, w.sections[u]);
    }
  }

  lemma MintKeepsGuarded(cfg: Config, w: World, p: Process, order: NewOrder)
    requires Guarded(cfg, w) && CanMint(w, order)
    ensures Guarded(cfg, Step(cfg, w, MintId(p, order)))
  {
    MintKeepsOrderly(cfg, w, p, order);
    StageChangeKeepsGuarded(cfg, w, Step(cfg, w, MintId(p, order)), 0);
  }

  lemma StepKeepsGuarded(cfg: Config, w: World, e: Event)
    requires Guarded(cfg, w)
    requires e.Enter? ==> !Overlap(cfg, w, e.task, e.id)
    ensures Guarded(cfg, Step(cfg, w, e))
  {
    hide Guarded, CanEnter, EnterSection, AdvanceSection, CanMint, Overlap, KeepsProtected;
    match e
    case Advance(t, saved, released) => if w.Runnable(t) { AdvanceKeepsGuarded(cfg, w, t, saved, released); }
    case MintId(p, order) => if CanMint(w, order) { MintKeepsGuarded(cfg, w, p, order); }
    case Enter(t, id) => if CanEnter(w, t, id) { EnterKeepsGuarded(cfg, w, t, id); }
    case Validate(t, seen) => ValidateKeepsGuarded(cfg, w, t, seen);
    case Answer(t, answer) => AnswerKeepsGuarded(cfg, w, t, answer);
    case Monitor(_, id, authoritative) => MonitorKeepsGuarded(cfg, w, e);
    case Resolve(id, initial, mode, exchange) => OperatorKeepsGuarded(cfg, w, e);
    case Attest(id, _, latest, _, fee) => OperatorKeepsGuarded(cfg, w, e);
    case Crash(p) => CrashKeepsGuarded(cfg, w, p, w.lockFile);
    case CrashInside(p) =>
      if w.CanWrite(p) { CrashKeepsGuarded(cfg, w, p, if p in w.held then w.lockFile else Some(p)); }
    case ClearLock => if w.sections == map[] && w.held == {} { ClearKeepsGuarded(cfg, w); }
    case ManagedWrite(p, replaced) => if w.LockedBy(p) { ManagedWriteKeepsGuarded(cfg, w, p, replaced); }
  }

  lemma ClearKeepsGuarded(cfg: Config, w: World)
    requires Guarded(cfg, w) && w.sections == map[] && w.held == {}
    ensures Guarded(cfg, w.(lockFile := None))
  {
    FewerSectionsKeepOrderly(cfg, w, w.(lockFile := None));
    hide Orderly;
  }

  lemma MonitorKeepsGuarded(cfg: Config, w: World, e: Event)
    requires Guarded(cfg, w) && e.Monitor?
    ensures Guarded(cfg, Step(cfg, w, e))
  {
    var v := Step(cfg, w, e);
    if v != w {
      assert Keyed(w);
      hide Guarded, StandsAlone;
      ObserverSaves(cfg, w, Adopt(w.orders[e.id], e.authoritative));
    }
  }

  // The operator commands run only while nobody holds the lock.
  lemma OperatorKeepsGuarded(cfg: Config, w: World, e: Event)
    requires Guarded(cfg, w) && (e.Resolve? || e.Attest?)
    ensures Guarded(cfg, Step(cfg, w, e))
  {
    if w.lockFile.None? && e.id in w.orders {
      assert Keyed(w) && OneOwner(w);
      hide Guarded, StandsAlone, Orderly;
      if e.Attest? {
        ObserverSaves(cfg, w, Attested(w.orders[e.id], e.latest, e.fee));
      } else if ResolveCreated(w.orders[e.id], e.initial, e.mode, e.exchange).Some? {
        ObserverSaves(cfg, w, ResolveCreated(w.orders[e.id], e.initial, e.mode, e.exchange).value);
      }
    }
  }

  lemma StartIsGuarded(cfg: Config, w: World)
    requires Start(w) && AtMostOneInFlight(w.orders)
    ensures Guarded(cfg, w)
  {
  }

  lemma {:induction false} RunIsGuarded(cfg: Config, w: World, es: seq<Event>)
    requires Guarded(cfg, w) && Disciplined(cfg, w, es)
    ensures Guarded(cfg, Run(cfg, w, es))
    decreases |es|
  {
    if es != [] {
      var rest := es[..|es| - 1];
      assert forall i :: 0 <= i < |rest| ==> rest[..i] == es[..i];
      RunIsGuarded(cfg, w, rest);
      StepKeepsGuarded(cfg, Run(cfg, w, rest), es[|es| - 1]);
    }
  }

  // ---- Funds of open outcomes ----

  // The exact cost of a called purchase is still set aside while its record is in flight, was
  // never identified, and no definite rejection came back.
  ghost predicate OpenFunds(cfg: Config, w: World) {
    forall id :: id in w.calls && id in w.minted && id !in w.rejected && Protected(w, id)
      ==> CostReserved(cfg, w.stored, w.minted[id].order)
  }

  lemma CostReservedFrame(cfg: Config, before: Stored, after: Stored, order: NewOrder)
    requires SameReservation(before, after, order.clientOrderId) && CostReserved(cfg, before, order)
    ensures CostReserved(cfg, after, order)
  {
    hide QuoteCost;
  }

  // A protected order after a stretch was protected before it.
  lemma AdvanceProtects(cfg: Config, w: World, t: Task, saved: bool, released: bool, id: string)
    requires t in w.sections && id in w.calls
    requires Matches(cfg, w, w.sections[t]) && StageMatches(cfg, w, w.sections[t])
    ensures Protected(AdvanceSection(cfg, w, t, saved, released), id) ==> Protected(w, id)
  {
    if w.sections[t].owner {
      OwnerProtects(cfg, w, t, saved, released, id);
    } else {
      AdvanceOfNested(cfg, w, t, saved, released);
      hide AdvanceSection, StageMatches, Matches;
    }
  }

  // A stretch writes no record but its own, and forgets no identification.
  ghost predicate WritesOwnRecord(w: World, v: World, id: string) {
    w.identified <= v.identified && forall i :: i != id && InFlight(v.orders, i) ==> InFlight(w.orders, i)
  }

  lemma FundingWritesOwn(cfg: Config, w: World, t: Task, canSave: bool, canRelease: bool)
    requires t in w.sections
    ensures WritesOwnRecord(w, Fund(cfg, w, t, canSave, canRelease), w.sections[t].order.clientOrderId)
    ensures WritesOwnRecord(w, Persist(w, t, canSave, canRelease), w.sections[t].order.clientOrderId)
    ensures Fund(cfg, w, t, canSave, canRelease).orders == w.orders
  {
    hide ReserveQuote, ManagedStore.ReleaseQuote;
  }

  lemma RecordWritesOwn(cfg: Config, w: World, t: Task, answer: Answer, canSave: bool, canRelease: bool)
    requires t in w.sections
    ensures WritesOwnRecord(w, Record(cfg, w, t, answer, canSave, canRelease), w.sections[t].order.clientOrderId)
  {
    hide ManagedStore.ReleaseQuote;
  }

  lemma SaveWritesOwn(w: World, v: World, record: Order)
    requires v.orders == w.Save(record).orders && v.identified == w.Save(record).identified
    ensures WritesOwnRecord(w, v, record.clientOrderId)
  {
  }

  lemma StretchWritesOwn(cfg: Config, w: World, t: Task, saved: bool, released: bool)
    requires t in w.sections
    ensures WritesOwnRecord(w, AdvanceSection(cfg, w, t, saved, released), w.sections[t].order.clientOrderId)
  {
    var s := w.sections[t];
    var canSave := saved && w.CanWrite(s.process);
    var canRelease := released && w.CanWrite(s.process);
    var v := AdvanceSection(cfg, w, t, saved, released);
    hide Fund, Persist, Record, GuardBlock;
    match s.stage {
      case Claimed => FundingWritesOwn(cfg, w, t, canSave, canRelease);
      case Funded => FundingWritesOwn(cfg, w, t, canSave, canRelease);
      case Answered(answer) => RecordWritesOwn(cfg, w, t, answer, canSave, canRelease);
      case Fallback =>
        if canSave { SaveWritesOwn(w, v, Outcome(s.order, OtherError)); }
      case Refunded =>
        if canSave { SaveWritesOwn(w, v, Outcome(s.order, DefiniteRejection)); }
      case _ =>
    }
  }

  lemma OwnerProtects(cfg: Config, w: World, t: Task, saved: bool, released: bool, id: string)
    requires t in w.sections && id in w.calls && w.sections[t].owner
    requires OwnerMatches(cfg, w, w.sections[t]) && StageMatches(cfg, w, w.sections[t])
    ensures Protected(AdvanceSection(cfg, w, t, saved, released), id) ==> Protected(w, id)
  {
    StretchWritesOwn(cfg, w, t, saved, released);
    if id == w.sections[t].order.clientOrderId {
      hide WritesOwnRecord;
      OwnRecordStands(cfg, w, t, saved, released);
    }
    hide AdvanceSection;
  }

  // A called order whose own section goes on was protected, or its record stays as it is.
  lemma OwnRecordStands(cfg: Config, w: World, t: Task, saved: bool, released: bool)
    requires t in w.sections && w.sections[t].order.clientOrderId in w.calls && w.sections[t].owner
    requires OwnerMatches(cfg, w, w.sections[t]) && StageMatches(cfg, w, w.sections[t])
    ensures var v, id := AdvanceSection(cfg, w, t, saved, released), w.sections[t].order.clientOrderId;
            Protected(v, id) ==> Protected(w, id)
  {
    hide InScope, CostReserved, GuardBlock, HasInFlight, Fund, Persist, Record;
  }

  lemma AdvanceKeepsFunds(cfg: Config, w: World, t: Task, saved: bool, released: bool)
    requires Guarded(cfg, w) && OpenFunds(cfg, w) && t in w.sections
    ensures OpenFunds(cfg, AdvanceSection(cfg, w, t, saved, released))
  {
    var s := w.sections[t];
    var v := AdvanceSection(cfg, w, t, saved, released);
    assert Matches(cfg, w, s) && StageMatches(cfg, w, s) && IssuedTo(w, s) && Keyed(w);
    AdvanceIsStretch(cfg, w, t, saved, released);
    assert s.stage.Persisted? ==> v.stored == w.stored;
    hide AdvanceSection, InScope, Placeable, CostReserved, Guarded, Protected, OthersStay, Moved;
    forall id | id in v.calls && id in v.minted && id !in v.rejected && Protected(v, id)
      ensures CostReserved(cfg, v.stored, v.minted[id].order)
    {
      if id in w.calls {
        AdvanceProtects(cfg, w, t, saved, released, id);
        AdvanceKeepsReservation(cfg, w, t, saved, released, id);
        CostReservedFrame(cfg, w.stored, v.stored, w.minted[id].order);
      }
    }
  }

  lemma FundsFrame(cfg: Config, w: World, v: World)
    requires OpenFunds(cfg, w) && Keyed(w) && v.calls == w.calls && w.rejected <= v.rejected
    requires forall id :: id in w.calls && Protected(v, id) ==>
        Protected(w, id) && SameReservation(w.stored, v.stored, id)
    requires forall id :: id in w.calls && id in v.minted ==> id in w.minted && v.minted[id] == w.minted[id]
    ensures OpenFunds(cfg, v)
  {
    hide Protected, CostReserved, SameReservation;
    forall id | id in v.calls && id in v.minted && id !in v.rejected && Protected(v, id)
      ensures CostReserved(cfg, v.stored, v.minted[id].order)
    {
      CostReservedFrame(cfg, w.stored, v.stored, w.minted[id].order);
    }
  }

  lemma StepKeepsFunds(cfg: Config, w: World, e: Event)
    requires Guarded(cfg, w) && OpenFunds(cfg, w)
    ensures OpenFunds(cfg, Step(cfg, w, e))
  {
    if e.Advance? {
      if w.Runnable(e.task) { AdvanceKeepsFunds(cfg, w, e.task, e.saved, e.released); }
    } else {
      assert Keyed(w) && forall id :: id in w.calls ==> id in w.minted by { assert CallsRecorded(cfg, w); }
      OthersKeepCalls(cfg, w, e);
      OthersProtect(cfg, w, e);
      hide Step, OpenFunds, Keyed, Guarded;
      FundsFrame(cfg, w, Step(cfg, w, e));
    }
  }

  lemma OthersKeepCalls(cfg: Config, w: World, e: Event)
    requires !e.Advance?
    ensures var v := Step(cfg, w, e);
            && v.calls == w.calls && w.rejected <= v.rejected
            && forall id :: id in w.minted ==> id in v.minted && v.minted[id] == w.minted[id]
  {
    hide CanEnter, AdvanceSection, ResolveCreated, CanAttest, KeepsProtected, ValidateOrder;
  }

  // Outside a section nothing becomes protected, and the reservation of what is stays.
  lemma OthersProtect(cfg: Config, w: World, e: Event)
    requires Guarded(cfg, w) && !e.Advance?
    ensures forall id :: id in w.calls && Protected(Step(cfg, w, e), id)
              ==> Protected(w, id) && SameReservation(w.stored, Step(cfg, w, e).stored, id)
  {
    assert Keyed(w) && CallsRecorded(cfg, w);
    hide Guarded;
    forall id | id in w.calls && Protected(Step(cfg, w, e), id)
      ensures Protected(w, id) && SameReservation(w.stored, Step(cfg, w, e).stored, id)
    {
      OtherProtects(cfg, w, e, id);
    }
  }

  lemma OtherProtects(cfg: Config, w: World, e: Event, id: string)
    requires Keyed(w) && id in w.orders && id in w.minted && !e.Advance? && Protected(Step(cfg, w, e), id)
    ensures Protected(w, id) && SameReservation(w.stored, Step(cfg, w, e).stored, id)
  {
    hide CanEnter, CanMint, AdvanceSection, SameIdentity, UnchangedSince, ValidateOrder, CanAttest;
  }

  // ---- The claims ----

  lemma OneInFlightAlways(cfg: Config, w: World, es: seq<Event>)
    requires Start(w) && AtMostOneInFlight(w.orders) && Disciplined(cfg, w, es)
    ensures AtMostOneInFlight(Run(cfg, w, es).orders)
  {
    StartIsGuarded(cfg, w);
    RunIsGuarded(cfg, w, es);
  }

  // The event calls the exchange for an order the ledger holds as CREATED, alone in flight and
  // never identified, that was not called before and whose exact cost is reserved.
  ghost predicate BackedCall(cfg: Config, v: World, e: Event) {
    exists order: NewOrder ::
      && Step(cfg, v, e).calls == v.calls + [order.clientOrderId] && order.clientOrderId !in v.calls
      && StandsAlone(v, order) && CostReserved(cfg, v.stored, order)
  }

  lemma GuardedCallIsBacked(cfg: Config, v: World, e: Event)
    requires Guarded(cfg, v) && Step(cfg, v, e).calls != v.calls
    ensures BackedCall(cfg, v, e)
  {
    hide CostReserved, StandsAlone, Placeable, InScope;
    assert e.Advance? && v.Runnable(e.task);
    var s := v.sections[e.task];
    assert Matches(cfg, v, s) && StageMatches(cfg, v, s);
    AdvanceIsStretch(cfg, v, e.task, e.saved, e.released);
    hide AdvanceSection;
    assert Step(cfg, v, e).calls == v.calls + [s.order.clientOrderId];
  }

  // Without an overlap, at the moment of a call the ledger holds exactly that order as CREATED,
  // nothing else is in flight, and the exact cost of a purchase is reserved. `LockReentry` shows
  // that an overlap is exactly what takes this away.
  lemma CallsAreBacked(cfg: Config, w: World, es: seq<Event>, e: Event)
    requires Start(w) && AtMostOneInFlight(w.orders) && Disciplined(cfg, w, es)
    requires Step(cfg, Run(cfg, w, es), e).calls != Run(cfg, w, es).calls
    ensures BackedCall(cfg, Run(cfg, w, es), e)
  {
    StartIsGuarded(cfg, w);
    RunIsGuarded(cfg, w, es);
    hide Guarded, Step, Run;
    GuardedCallIsBacked(cfg, Run(cfg, w, es), e);
  }

  // The reservation of a called purchase survives everything but a definite rejection, an
  // exchange identity for its record, or the resolution of the record.
  lemma {:induction false} FundsStayReserved(cfg: Config, w: World, es: seq<Event>)
    requires Start(w) && AtMostOneInFlight(w.orders) && Disciplined(cfg, w, es)
    ensures OpenFunds(cfg, Run(cfg, w, es))
    decreases |es|
  {
    if es != [] {
      var rest := es[..|es| - 1];
      assert forall i :: 0 <= i < |rest| ==> rest[..i] == es[..i];
      StartIsGuarded(cfg, w);
      RunIsGuarded(cfg, w, rest);
      FundsStayReserved(cfg, w, rest);
      StepKeepsFunds(cfg, Run(cfg, w, rest), es[|es| - 1]);
    }
  }
}
