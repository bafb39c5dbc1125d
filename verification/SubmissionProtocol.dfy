/**
 The live submission protocol as a transition system.

 `LiveOrderEngine.submit` runs as a section of several atomic steps. Between its two awaits
 (the exchange reads of `validateOrder`, the answer of `placeOrder`) a process runs one section
 at a time, everything else interleaves freely: sections of other processes, the monitor, the
 operator commands, other writers of the portfolio, and crashes between any two durable writes.

 The state lock is the file of src/persistence/lock.ts: exclusive between processes, but
 re-entrant inside the process that holds it, also for an asynchronous section.
 */
module SubmissionProtocol {
  import opened Wrappers
  import opened Money
  import opened Orders
  import opened ManagedStore
  import opened SubmissionRules
  import opened ObserverRules

  type Process = nat
  type Task = nat

  datatype Stage =
    | Validating          // past the guard, awaiting the exchange reads
    | Checked             // validated: managed guard and duplicate check are next
    | Claimed             // nothing blocks the id: the reservation is next
    | Funded              // the CREATED record is next
    | Persisted           // the exchange call is next
    | Awaiting            // awaiting the exchange's answer
    | Answered(answer: Answer)
    | Fallback            // the outcome could not be saved: one more attempt, as UNKNOWN
    | Refunded            // the reservation of a rejected order is released
    | Closing             // the lock is released next

  predicate Sync(stage: Stage) {
    stage != Validating && stage != Awaiting
  }

  // `owner`: this section created the lock file and will remove it.
  datatype Section = Section(process: Process, order: NewOrder, stage: Stage, owner: bool, reserved: bool)

  // A client order id belongs to one immutable order of one process.
  datatype Mint = Mint(process: Process, order: NewOrder)

  datatype World = World(
    orders: Ledger,
    stored: Stored,
    lockFile: Option<Process>,
    held: set<Process>,            // processes whose memory says that they hold the lock
    sections: map<Task, Section>,
    minted: map<string, Mint>,
    // history
    calls: seq<string>,            // placeOrder calls, in order
    rejected: set<string>,         // ids the exchange answered with a definite rejection
    identified: set<string>)       // ids whose record may ever have carried an exchange order id
  {
    predicate CpuFree(p: Process) {
      forall t :: t in sections && sections[t].process == p ==> !Sync(sections[t].stage)
    }

    // The task may take its next step: no sibling of the same process is in a synchronous stretch.
    predicate Runnable(t: Task) {
      t in sections
      && forall s :: s in sections && s != t && sections[s].process == sections[t].process ==> !Sync(sections[s].stage)
    }

    // A store's own save takes the lock again, re-entrantly or for the moment of the write.
    predicate CanWrite(p: Process) {
      p in held || lockFile.None?
    }

    // A synchronous locked operation of process p can run now.
    predicate LockedBy(p: Process) {
      CpuFree(p) && CanWrite(p)
    }

    function Save(order: Order): World {
      this.(orders := orders[order.clientOrderId := order],
            identified := if order.exchangeOrderId.Some? then identified + {order.clientOrderId} else identified)
    }

    function Release(order: NewOrder, saved: bool): World {
      this.(stored := ManagedStore.ReleaseQuote(stored, order, saved))
    }

    function To(t: Task, stage: Stage): World
      requires t in sections
    {
      this.(sections := sections[t := sections[t].(stage := stage)])
    }

    function Without(p: Process): World {
      this.(sections := map t | t in sections && sections[t].process != p :: sections[t], held := held - {p})
    }
  }

  datatype Event =
    | MintId(process: Process, order: NewOrder)
    | Enter(task: Task, id: string)
    | Validate(task: Task, seen: Reads)
    | Advance(task: Task, saved: bool, released: bool)
    | Answer(task: Task, answer: Answer)
    | Crash(process: Process)
    | CrashInside(process: Process)
    | ClearLock
    | Monitor(process: Process, id: string, authoritative: Order)
    | Resolve(id: string, initial: Order, mode: Mode, exchange: Option<Order>)
    | Attest(id: string, initial: Order, latest: Order, orderId: string, fee: Money)
    | ManagedWrite(process: Process, replaced: Stored)

  // ---- Steps. An event that is not enabled changes nothing. ----

  // A fresh random id, never issued before.
  predicate CanMint(w: World, order: NewOrder) {
    order.clientOrderId !in w.minted && IsLiveId(order.clientOrderId)
  }

  // The section may start: the lock is free or already held by this process, and the guard,
  // which runs before the first await, finds nothing in flight.
  predicate CanEnter(w: World, t: Task, id: string) {
    && t !in w.sections
    && id in w.minted
    && w.CpuFree(w.minted[id].process)
    && w.CanWrite(w.minted[id].process)
    && !HasInFlight(w.orders)
  }

  function EnterSection(w: World, t: Task, id: string): World
    requires CanEnter(w, t, id)
  {
    var p := w.minted[id].process;
    if p in w.held then w.(sections := w.sections[t := Section(p, w.minted[id].order, Validating, false, false)])
    else w.(
      lockFile := Some(p),
      held := w.held + {p},
      sections := w.sections[t := Section(p, w.minted[id].order, Validating, true, false)])
  }

  // The managed guard and the duplicate check.
  function Check(cfg: Config, w: World, t: Task): World
    requires t in w.sections
  {
    var order := w.sections[t].order;
    if (cfg.managedGuard && GuardBlock(w.stored, order).Some?) || order.clientOrderId in w.orders
    then w.To(t, Closing) else w.To(t, Claimed)
  }

  // The reservation of a BUY, when the hooks are configured.
  function Fund(cfg: Config, w: World, t: Task, canSave: bool, canRelease: bool): World
    requires t in w.sections
  {
    var s := w.sections[t];
    if !cfg.Reserves(s.order) then w.To(t, Funded)
    else
      var (stored, block) := ReserveQuote(w.stored, cfg.reservation.value, s.order, canSave);
      if block.Some? then w.Release(s.order, canRelease).To(t, Closing)
      else w.(stored := stored, sections := w.sections[t := s.(stage := Funded, reserved := true)])
  }

  // The durable CREATED record; when it cannot be written the reservation is given back.
  function Persist(w: World, t: Task, canSave: bool, canRelease: bool): World
    requires t in w.sections
  {
    var s := w.sections[t];
    if canSave then w.Save(Recorded(s.order, Created, None)).To(t, Persisted)
    else if s.reserved then w.Release(s.order, canRelease).To(t, Closing)
    else w.To(t, Closing)
  }

  // The answer is recorded, except that a rejection releases the reservation first.
  function Record(cfg: Config, w: World, t: Task, answer: Answer, canSave: bool, canRelease: bool): World
    requires t in w.sections
  {
    var order := w.sections[t].order;
    if answer.DefiniteRejection? then
      (if cfg.Reserves(order) then w.Release(order, canRelease) else w).To(t, Refunded)
    else if canSave then w.Save(Outcome(order, answer)).To(t, Closing)
    else if answer.Acknowledged? || answer.UnknownOutcome? then w.To(t, Fallback)
    else w.To(t, Closing)
  }

  // One atomic stretch of a section, up to and including its next durable write.
  function AdvanceSection(cfg: Config, w: World, t: Task, saved: bool, released: bool): World
    requires t in w.sections
  {
    var s := w.sections[t];
    var canSave := saved && w.CanWrite(s.process);
    var canRelease := released && w.CanWrite(s.process);
    match s.stage
    case Validating => w
    case Awaiting => w
    case Checked => Check(cfg, w, t)
    case Claimed => Fund(cfg, w, t, canSave, canRelease)
    case Funded => Persist(w, t, canSave, canRelease)
    case Persisted => w.(calls := w.calls + [s.order.clientOrderId]).To(t, Awaiting)
    case Answered(answer) => Record(cfg, w, t, answer, canSave, canRelease)
    case Fallback => (if canSave then w.Save(Outcome(s.order, OtherError)) else w).To(t, Closing)
    case Refunded => (if canSave then w.Save(Outcome(s.order, DefiniteRejection)) else w).To(t, Closing)
    case Closing => Leave(w, t)
  }

  // The section that created the lock file removes it.
  function Leave(w: World, t: Task): World
    requires t in w.sections
  {
    var closed := w.(sections := w.sections - {t});
    if w.sections[t].owner then closed.(lockFile := None, held := w.held - {w.sections[t].process}) else closed
  }

  // A live order nobody but its own section may touch: in flight, and never identified.
  predicate Protected(w: World, id: string) {
    InFlight(w.orders, id) && id !in w.identified
  }

  // Writers that reload the portfolio under the lock leave the reservations of such orders alone.
  predicate KeepsProtected(w: World, replaced: Stored) {
    forall id :: id in w.minted && Protected(w, id) && w.stored.Loaded? && id in w.stored.portfolio.reservations
      ==> replaced.Loaded? && id in replaced.portfolio.reservations
          && replaced.portfolio.reservations[id] == w.stored.portfolio.reservations[id]
  }

  function Step(cfg: Config, w: World, e: Event): World {
    match e
    case MintId(p, order) =>
      if CanMint(w, order) then w.(minted := w.minted[order.clientOrderId := Mint(p, order)]) else w
    case Enter(t, id) => if CanEnter(w, t, id) then EnterSection(w, t, id) else w
    case Validate(t, seen) =>
      if !w.Runnable(t) || w.sections[t].stage != Validating then w
      else w.To(t, if ValidateOrder(cfg, w.sections[t].order, seen).None? then Checked else Closing)
    case Advance(t, saved, released) => if w.Runnable(t) then AdvanceSection(cfg, w, t, saved, released) else w
    case Answer(t, answer) =>
      if !w.Runnable(t) || w.sections[t].stage != Awaiting then w
      else
        var id := w.sections[t].order.clientOrderId;
        w.(rejected := if answer.DefiniteRejection? then w.rejected + {id} else w.rejected).To(t, Answered(answer))
    case Crash(p) => w.Without(p)
    // A synchronous locked operation dies between its writes: the lock file stays.
    case CrashInside(p) =>
      if w.CanWrite(p) then w.Without(p).(lockFile := if p in w.held then w.lockFile else Some(p)) else w
    // The documented manual removal, when no mutator is running.
    case ClearLock => if w.sections == map[] && w.held == {} then w.(lockFile := None) else w
    case Monitor(p, id, authoritative) =>
      if w.LockedBy(p) && id in w.orders && IsLiveId(id) && id in w.identified && Observable(w.orders[id].status)
      then w.Save(Adopt(w.orders[id], authoritative)) else w
    case Resolve(id, initial, mode, exchange) =>
      if w.lockFile.None? && id in w.orders && ResolveCreated(w.orders[id], initial, mode, exchange).Some?
      then w.Save(ResolveCreated(w.orders[id], initial, mode, exchange).value) else w
    case Attest(id, initial, latest, orderId, fee) =>
      if w.lockFile.None? && id in w.orders && CanAttest(w.orders[id], initial, latest, orderId)
      then w.Save(Attested(w.orders[id], latest, fee)) else w
    case ManagedWrite(p, replaced) => if w.LockedBy(p) && KeepsProtected(w, replaced) then w.(stored := replaced) else w
  }

  function Run(cfg: Config, w: World, es: seq<Event>): World
    decreases |es|
  {
    if es == [] then w else Step(cfg, Run(cfg, w, es[..|es| - 1]), es[|es| - 1])
  }

  // A machine start: any durable state, nothing running, no id minted yet.
  predicate Start(w: World) {
    && w.lockFile.None? && w.held == {} && w.sections == map[] && w.minted == map[]
    && w.calls == [] && w.rejected == {} && w.identified == w.orders.Keys
    && (forall id :: id in w.orders ==> w.orders[id].clientOrderId == id)
  }

  lemma RunAppend(cfg: Config, w: World, es: seq<Event>, e: Event)
    ensures Run(cfg, w, es + [e]) == Step(cfg, Run(cfg, w, es), e)
  {
    assert (es + [e])[..|es|] == es;
  }

  lemma {:induction false} RunConcat(cfg: Config, w: World, es: seq<Event>, fs: seq<Event>)
    ensures Run(cfg, w, es + fs) == Run(cfg, Run(cfg, w, es), fs)
    decreases |fs|
  {
    if fs == [] {
      assert es + fs == es;
    } else {
      var gs := fs[..|fs| - 1];
      assert es + fs == (es + gs) + [fs[|fs| - 1]];
      RunAppend(cfg, w, es + gs, fs[|fs| - 1]);
      RunConcat(cfg, w, es, gs);
    }
  }

  lemma RunOne(cfg: Config, w: World, e: Event)
    ensures Run(cfg, w, [e]) == Step(cfg, w, e)
  {
    hide Step;
    assert [] + [e] == [e];
    RunAppend(cfg, w, [], e);
  }

  lemma RunTwo(cfg: Config, w: World, e: Event, f: Event)
    ensures Run(cfg, w, [e, f]) == Step(cfg, Step(cfg, w, e), f)
  {
    hide Step;
    RunOne(cfg, w, e);
    assert [e, f] == [e] + [f];
    RunAppend(cfg, w, [e], f);
  }

  lemma RunThree(cfg: Config, w: World, e: Event, f: Event, g: Event)
    ensures Run(cfg, w, [e, f, g]) == Step(cfg, Step(cfg, Step(cfg, w, e), f), g)
  {
    hide Step;
    RunTwo(cfg, w, e, f);
    assert [e, f, g] == [e, f] + [g];
    RunAppend(cfg, w, [e, f], g);
  }

  lemma RunFour(cfg: Config, w: World, e: Event, f: Event, w1: World, w2: World, w3: World)
    requires Step(cfg, w, e) == w1 && Step(cfg, w1, f) == w2 && Step(cfg, w2, f) == w3
    ensures Run(cfg, w, [e, f, f, f]) == Step(cfg, w3, f)
  {
    hide Step;
    RunThree(cfg, w, e, f, f);
    assert [e, f, f, f] == [e, f, f] + [f];
    RunAppend(cfg, w, [e, f, f], f);
  }
}
