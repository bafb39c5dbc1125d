/**
 `LiveOrderEngine.submit` (src/execution/LiveExecutionEngine.ts) in the form of the original:
 methods that write the order ledger and the managed portfolio step by step. An undisturbed
 submission is shown to be a run of the transition system of `SubmissionProtocol`, so everything
 proved about runs is about it.
 */
module LiveOrderEngine {
  import opened Wrappers
  import opened Orders
  import opened ManagedStore
  import opened SubmissionRules
  import opened StateStores
  import opened SubmissionProtocol

  // Which durable writes of one submission succeed.
  datatype Writes = Writes(reserve: bool, created: bool, release: bool, outcome: bool, fallback: bool)

  datatype Result =
    | GuardRefused(inFlight: string)       // one-in-flight guard
    | Invalid(error: GateError)
    | Refused                              // managed guard, duplicate id or reservation
    | NotPersisted                         // the CREATED record could not be written
    | Recorded(order: Order)               // what the ledger now holds for the id
    | NotRecorded                          // contacted the exchange, outcome not written

  // The guard's scan over all orders of the ledger.
  method FindInFlight(orders: Ledger) returns (found: Option<string>)
    ensures found.None? <==> !HasInFlight(orders)
    ensures found.Some? ==> InFlight(orders, found.value)
  {
    var left := orders.Keys;
    while left != {}
      invariant left <= orders.Keys
      invariant forall id :: id in orders && id !in left ==> !InFlight(orders, id)
      decreases |left|
    {
      var id :| id in left;
      if IsLiveId(id) && Unresolved(orders[id].status) { return Some(id); }
      left := left - {id};
    }
    found := None;
  }

  // The world of the transition system in which one process is about to submit one order.
  ghost function Alone(orders: Ledger, stored: Stored, placed: seq<string>, order: NewOrder): World {
    World(orders, stored, None, {}, map[], map[order.clientOrderId := Mint(0, order)], placed, {}, orders.Keys)
  }

  // The only section of the world, which holds the lock.
  ghost predicate At(w: World, order: NewOrder, stage: Stage, reserved: bool) {
    w.sections == map[0 := Section(0, order, stage, true, reserved)] && w.lockFile == Some(0) && w.held == {0}
  }

  ghost predicate Closed(w: World) {
    w.sections == map[] && w.lockFile.None? && w.held == {}
  }

  lemma Enters(cfg: Config, w: World, order: NewOrder)
    requires w.sections == map[] && w.lockFile.None? && w.held == {}
        && w.minted == map[order.clientOrderId := Mint(0, order)]
    requires !HasInFlight(w.orders)
    ensures var v := Step(cfg, w, Enter(0, order.clientOrderId));
            At(v, order, Validating, false) && v.orders == w.orders && v.stored == w.stored && v.calls == w.calls
  {
    hide HasInFlight;
    assert w.held + {0} == {0};
  }

  lemma Advances(cfg: Config, w: World, order: NewOrder, stage: Stage, reserved: bool, saved: bool, released: bool)
    requires At(w, order, stage, reserved)
    ensures w.Runnable(0) && w.CanWrite(0)
    ensures Step(cfg, w, Advance(0, saved, released)) == AdvanceSection(cfg, w, 0, saved, released)
  {
    hide AdvanceSection;
  }

  // What each stretch of the lone section does, in terms of the two stores.
  lemma Funds(cfg: Config, w: World, order: NewOrder, saved: bool, released: bool)
    requires At(w, order, Claimed, false)
    ensures var v := Step(cfg, w, Advance(0, saved, released));
            && v.orders == w.orders && v.calls == w.calls
            && if !cfg.Reserves(order) then At(v, order, Funded, false) && v.stored == w.stored
               else
                 var (next, block) := ReserveQuote(w.stored, cfg.reservation.value, order, saved);
                 if block.Some? then At(v, order, Closing, false) && v.stored == ReleaseQuote(w.stored, order, released)
                 else At(v, order, Funded, true) && v.stored == next
  {
    Advances(cfg, w, order, Claimed, false, saved, released);
    hide ReserveQuote, ManagedStore.ReleaseQuote, Step;
  }

  lemma Persists(cfg: Config, w: World, order: NewOrder, reserved: bool, saved: bool, released: bool)
    requires At(w, order, Funded, reserved)
    ensures var v := Step(cfg, w, Advance(0, saved, released));
            && v.calls == w.calls && At(v, order, if saved then Persisted else Closing, reserved)
            && v.orders
                 == (if saved then w.orders[order.clientOrderId := SubmissionRules.Recorded(order, Created, None)]
                     else w.orders)
            && v.stored == (if !saved && reserved then ReleaseQuote(w.stored, order, released) else w.stored)
  {
    Advances(cfg, w, order, Funded, reserved, saved, released);
    hide ManagedStore.ReleaseQuote, Step;
  }

  lemma Records(cfg: Config, w: World, order: NewOrder, answer: Answer, reserved: bool, saved: bool, released: bool)
    requires At(w, order, Answered(answer), reserved)
    ensures var v := Step(cfg, w, Advance(0, saved, released));
            && v.calls == w.calls
            && At(v, order, if answer.DefiniteRejection? then Refunded
                            else if !saved && (answer.Acknowledged? || answer.UnknownOutcome?) then Fallback
                            else Closing, reserved)
            && v.orders == (if saved && !answer.DefiniteRejection?
                            then w.orders[order.clientOrderId := Outcome(order, answer)] else w.orders)
            && v.stored
                 == (if answer.DefiniteRejection? && cfg.Reserves(order) then ReleaseQuote(w.stored, order, released)
                     else w.stored)
  {
    Advances(cfg, w, order, Answered(answer), reserved, saved, released);
    hide ManagedStore.ReleaseQuote, Step;
  }

  lemma Finishes(cfg: Config, w: World, order: NewOrder, stage: Stage, reserved: bool, saved: bool)
    requires At(w, order, stage, reserved) && (stage.Fallback? || stage.Refunded?)
    ensures var v := Step(cfg, w, Advance(0, saved, true));
            var outcome := Outcome(order, if stage.Fallback? then OtherError else DefiniteRejection);
            && v.calls == w.calls && v.stored == w.stored && At(v, order, Closing, reserved)
            && v.orders == (if saved then w.orders[order.clientOrderId := outcome] else w.orders)
  {
    Advances(cfg, w, order, stage, reserved, saved, true);
    hide ManagedStore.ReleaseQuote, Step;
  }

  lemma Leaves(cfg: Config, w: World, order: NewOrder, reserved: bool)
    requires At(w, order, Closing, reserved)
    ensures var v := Step(cfg, w, Advance(0, true, true));
            Closed(v) && v.orders == w.orders && v.stored == w.stored && v.calls == w.calls
  {
    Advances(cfg, w, order, Closing, reserved, true, true);
    assert w.sections - {0} == map[];
    assert w.held - {0} == {};
  }

  lemma Validates(cfg: Config, w: World, order: NewOrder, seen: Reads)
    requires At(w, order, Validating, false)
    ensures var v := Step(cfg, w, Validate(0, seen));
            && v.orders == w.orders && v.stored == w.stored && v.calls == w.calls
            && At(v, order, if ValidateOrder(cfg, order, seen).None? then Checked else Closing, false)
  {
    hide ValidateOrder;
  }

  lemma Checks(cfg: Config, w: World, order: NewOrder)
    requires At(w, order, Checked, false)
    ensures var v := Step(cfg, w, Advance(0, true, true));
            && v.orders == w.orders && v.stored == w.stored && v.calls == w.calls
            && At(v, order, if (cfg.managedGuard && GuardBlock(w.stored, order).Some?)
                || order.clientOrderId in w.orders
                            then Closing else Claimed, false)
  {
    Advances(cfg, w, order, Checked, false, true, true);
    hide GuardBlock, Step;
  }

  // The exchange call and its answer.
  lemma Calls(cfg: Config, w: World, order: NewOrder, answer: Answer, reserved: bool)
    requires At(w, order, Persisted, reserved)
    ensures var v := Step(cfg, Step(cfg, w, Advance(0, true, true)), Event.Answer(0, answer));
            && v.orders == w.orders && v.stored == w.stored && v.calls == w.calls + [order.clientOrderId]
            && At(v, order, Answered(answer), reserved)
  {
    Advances(cfg, w, order, Persisted, reserved, true, true);
  }

  class LiveOrderEngine {
    const cfg: Config
    const orders: OrderStore
    const managed: ManagedStateStore
    var placed: seq<string>                // the calls of the adapter's placeOrder

    constructor (cfg: Config, orders: OrderStore, managed: ManagedStateStore)
      ensures this.cfg == cfg && this.orders == orders && this.managed == managed && placed == []
    {
      this.cfg, this.orders, this.managed, placed := cfg, orders, managed, [];
    }

    ghost predicate Mirrors(w: World)
      reads this, orders, managed
    {
      w.orders == orders.orders && w.stored == managed.stored && w.calls == placed
    }

    // The exchange's answer: classified, recorded, and the funds of a rejected order given back.
    method Conclude(order: NewOrder, answer: Answer, writes: Writes, ghost w: World, ghost reserved: bool)
      returns (r: Result, ghost es: seq<Event>)
      requires Mirrors(w) && At(w, order, Answered(answer), reserved)
      modifies orders, managed
      ensures Mirrors(Run(cfg, w, es)) && At(Run(cfg, w, es), order, Closing, reserved)
      ensures r.Recorded? || (r.NotRecorded? && orders.orders == old(orders.orders))
      ensures r.Recorded? ==>
                && orders.orders == old(orders.orders)[order.clientOrderId := r.order]
                && (r.order == Outcome(order, answer)
                    || (r.order == Outcome(order, OtherError) && (answer.Acknowledged? || answer.UnknownOutcome?)))
      ensures managed.stored == if answer.DefiniteRejection? && cfg.Reserves(order)
                                then ManagedStore.ReleaseQuote(old(managed.stored), order, writes.release)
                                else old(managed.stored)
    {
      ghost var e := Advance(0, writes.outcome, writes.release);
      ghost var v := Step(cfg, w, e);
      Records(cfg, w, order, answer, reserved, writes.outcome, writes.release);
      es := [e];
      RunOne(cfg, w, e);
      hide Step, At, Outcome, ManagedStore.ReleaseQuote;
      var ok;
      if answer.DefiniteRejection? {
        if cfg.Reserves(order) { managed.Release(order, writes.release); }
        ok := orders.Save(Outcome(order, answer), writes.outcome);
        Finishes(cfg, v, order, Refunded, reserved, writes.outcome);
        es := [e, Advance(0, writes.outcome, true)];
        RunTwo(cfg, w, e, Advance(0, writes.outcome, true));
      } else {
        ok := orders.Save(Outcome(order, answer), writes.outcome);
        if !ok && (answer.Acknowledged? || answer.UnknownOutcome?) {
          ok := orders.Save(Outcome(order, OtherError), writes.fallback);
          Finishes(cfg, v, order, Fallback, reserved, writes.fallback);
          es := [e, Advance(0, writes.fallback, true)];
          RunTwo(cfg, w, e, Advance(0, writes.fallback, true));
          return if ok then Result.Recorded(Outcome(order, OtherError)) else NotRecorded, es;
        }
      }
      r := if ok then Result.Recorded(Outcome(order, answer)) else NotRecorded;
    }

    // The reservation and the CREATED record, before anything is sent.
    method Persist(order: NewOrder, writes: Writes, ghost w: World)
      returns (failed: Option<Result>, ghost es: seq<Event>, ghost reserved: bool)
      requires Mirrors(w) && At(w, order, Claimed, false)
      modifies orders, managed
      ensures Mirrors(Run(cfg, w, es))
      ensures failed.None? ==>
                && At(Run(cfg, w, es), order, Persisted, reserved)
                && orders.orders
                    == old(orders.orders)[order.clientOrderId := SubmissionRules.Recorded(order, Created, None)]
                && (cfg.Reserves(order) ==> FullyReserved(managed.stored, cfg.reservation.value, order))
      ensures failed.Some? ==>
                && At(Run(cfg, w, es), order, Closing, reserved) && orders.orders == old(orders.orders)
                && (failed.value.Refused? || failed.value.NotPersisted?)
    {
      ghost var e := Advance(0, writes.reserve, writes.release);
      ghost var v := Step(cfg, w, e);
      Funds(cfg, w, order, writes.reserve, writes.release);
      es := [e];
      RunOne(cfg, w, e);
      reserved := cfg.Reserves(order);
      ghost var before := managed.stored;
      hide Step, At, SubmissionRules.Recorded, ManagedStore.ReleaseQuote, ReserveQuote, FullyReserved;
      if cfg.Reserves(order) {
        var block := managed.Reserve(cfg.reservation.value, order, writes.reserve);
        if block.Some? {
          managed.Release(order, writes.release);
          return Some(Refused), es, false;
        }
        ReservedByFund(before, cfg.reservation.value, order, writes.reserve);
      }
      var saved := orders.Save(SubmissionRules.Recorded(order, Created, None), writes.created);
      if !saved && cfg.Reserves(order) { managed.Release(order, writes.release); }
      Persists(cfg, v, order, reserved, writes.created, writes.release);
      es := [e, Advance(0, writes.created, writes.release)];
      RunTwo(cfg, w, e, Advance(0, writes.created, writes.release));
      failed := if saved then None else Some(NotPersisted);
    }

    // The guard, the validation, the managed-state guard and the duplicate check. Nothing is written.
    method Admit(order: NewOrder, seen: Reads) returns (refused: Option<Result>, ghost es: seq<Event>)
      ensures var w := Run(cfg, Alone(orders.orders, managed.stored, placed, order), es);
              Mirrors(w) && if refused.None? then At(w, order, Claimed, false) else Closed(w)
      ensures refused.Some? ==> refused.value.GuardRefused? || refused.value.Invalid? || refused.value.Refused?
      ensures HasInFlight(orders.orders) <==> refused.Some? && refused.value.GuardRefused?
      ensures !HasInFlight(orders.orders) && ValidateOrder(cfg, order, seen).Some?
          <==> refused.Some? && refused.value.Invalid?
      ensures refused.None? ==>
                order.clientOrderId !in orders.orders && !(cfg.managedGuard && GuardBlock(managed.stored, order).Some?)
    {
      ghost var start := Alone(orders.orders, managed.stored, placed, order);
      es := [];
      var blocking := FindInFlight(orders.orders);
      if blocking.Some? { return Some(GuardRefused(blocking.value)), es; }

      var id := order.clientOrderId;
      var invalid := ValidateOrder(cfg, order, seen);
      Enters(cfg, start, order);
      ghost var w := Step(cfg, start, Enter(0, id));
      Validates(cfg, w, order, seen);
      w := Step(cfg, w, Validate(0, seen));
      es := [Enter(0, id), Validate(0, seen)];
      RunTwo(cfg, start, Enter(0, id), Validate(0, seen));
      hide Step, Run, Alone, At, Closed, HasInFlight, ValidateOrder, GuardBlock;
      if invalid.Some? {
        es := Close(start, es, w, order, false);
        return Some(Invalid(invalid.value)), es;
      }

      Checks(cfg, w, order);
      RunAppend(cfg, start, es, Advance(0, true, true));
      w, es := Step(cfg, w, Advance(0, true, true)), es + [Advance(0, true, true)];
      if (cfg.managedGuard && GuardBlock(managed.stored, order).Some?) || id in orders.orders {
        es := Close(start, es, w, order, false);
        return Some(Refused), es;
      }
      refused := None;
    }

    // The exchange call, its answer, and the end of the section.
    method Contact(order: NewOrder, answer: Answer, writes: Writes, ghost w: World, ghost reserved: bool)
      returns (r: Result, ghost es: seq<Event>)
      requires Mirrors(w) && At(w, order, Persisted, reserved)
      modifies orders, managed, this`placed
      ensures Mirrors(Run(cfg, w, es)) && Closed(Run(cfg, w, es))
      ensures placed == old(placed) + [order.clientOrderId]
      ensures r.Recorded? || (r.NotRecorded? && orders.orders == old(orders.orders))
      ensures r.Recorded? ==>
                && orders.orders == old(orders.orders)[order.clientOrderId := r.order]
                && (r.order == Outcome(order, answer)
                    || (r.order == Outcome(order, OtherError) && (answer.Acknowledged? || answer.UnknownOutcome?)))
      ensures answer.DefiniteRejection? || managed.stored == old(managed.stored)
    {
      placed := placed + [order.clientOrderId];
      ghost var call := [Advance(0, true, true), Event.Answer(0, answer)];
      Calls(cfg, w, order, answer, reserved);
      RunTwo(cfg, w, Advance(0, true, true), Event.Answer(0, answer));
      hide Step, Run, At, Closed, Outcome;
      ghost var v := Run(cfg, w, call);
      r, es := Conclude(order, answer, writes, v, reserved);
      RunConcat(cfg, w, call, es);
      es := Close(w, call + es, Run(cfg, v, es), order, reserved);
    }

    // One submission with nothing else running: the exchange reads of the validation, the
    // exchange's answer and the fate of every write are given.
    method Submit(
        order: NewOrder, seen: Reads, answer: Answer, writes: Writes) returns (r: Result, ghost es: seq<Event>)
      modifies orders, managed, this`placed
      // It is a run of the protocol that ends with the lock released.
      ensures var w := Run(cfg, Alone(old(orders.orders), old(managed.stored), old(placed), order), es);
              Mirrors(w) && Closed(w)
      // Which of the checks refuses it, in this order.
      ensures r.GuardRefused? <==> HasInFlight(old(orders.orders))
      ensures !r.GuardRefused? ==> (r.Invalid? <==> ValidateOrder(cfg, order, seen).Some?)
      ensures !r.GuardRefused? && !r.Invalid? && order.clientOrderId in old(orders.orders) ==> r.Refused?
      ensures cfg.managedGuard && GuardBlock(old(managed.stored), order).Some? ==>
                !r.Recorded? && !r.NotRecorded? && !r.NotPersisted?
      // The exchange is called at most once, and never by a submission that was refused.
      ensures placed == old(placed) + if r.Recorded? || r.NotRecorded? then [order.clientOrderId] else []
      ensures !(r.Recorded? || r.NotRecorded?) ==> orders.orders == old(orders.orders)
      // Afterwards the ledger holds the outcome under the order's id, or still its CREATED record.
      ensures r.Recorded? ==>
                && orders.orders == old(orders.orders)[order.clientOrderId := r.order]
                && (r.order == Outcome(order, answer)
                    || (r.order == Outcome(order, OtherError) && (answer.Acknowledged? || answer.UnknownOutcome?)))
      ensures r.NotRecorded? ==>
                orders.orders
                    == old(orders.orders)[order.clientOrderId := SubmissionRules.Recorded(order, Created, None)]
      // The exact cost of a contacted purchase stays reserved, except after a definite rejection.
      ensures (r.Recorded? || r.NotRecorded?) && cfg.Reserves(order) ==>
                answer.DefiniteRejection? || FullyReserved(managed.stored, cfg.reservation.value, order)
      ensures r.GuardRefused? || r.Invalid? ==> managed.stored == old(managed.stored)
    {
      ghost var start := Alone(orders.orders, managed.stored, placed, order);
      hide Step, Run, Alone, At, Closed, HasInFlight, ValidateOrder, GuardBlock, Outcome, SubmissionRules.Recorded,
          FullyReserved;
      var failed;
      failed, es := Admit(order, seen);
      if failed.Some? { return failed.value, es; }

      ghost var more, reserved;
      failed, more, reserved := Persist(order, writes, Run(cfg, start, es));
      RunConcat(cfg, start, es, more);
      es := es + more;
      if failed.Some? {
        es := Close(start, es, Run(cfg, start, es), order, reserved);
        return failed.value, es;
      }
      r, more := Contact(order, answer, writes, Run(cfg, start, es), reserved);
      RunConcat(cfg, start, es, more);
      es := es + more;
    }

    // The lock is released.
    ghost method Close(
        start: World, past: seq<Event>, w: World, order: NewOrder, reserved: bool) returns (es: seq<Event>)
      requires Run(cfg, start, past) == w && At(w, order, Closing, reserved) && Mirrors(w)
      ensures Closed(Run(cfg, start, es)) && Mirrors(Run(cfg, start, es))
    {
      es := past + [Advance(0, true, true)];
      Leaves(cfg, w, order, reserved);
      RunAppend(cfg, start, past, Advance(0, true, true));
    }
  }
}
