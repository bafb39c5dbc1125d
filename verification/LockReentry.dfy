/**
 The guard and the re-entrant lock. `OneInFlight` keeps at most one live order in flight as long
 as no placeable new order enters while its own process already holds the lock. Here the other
 half: every such entry, from every state a run can be in, has a continuation without any further
 overlap in which two live orders are in flight, and one in which a call is not backed by its
 record alone. The section that held the lock leaves, takes the lock file away under the nested
 section, and the next submission finds nothing in flight.
 */
module LockReentry {
  import opened Wrappers
  import opened Money
  import opened Orders
  import opened ManagedStore
  import opened SubmissionRules
  import opened ObserverRules
  import opened SubmissionProtocol
  import opened ExactlyOnce
  import opened OneInFlight
  import P = Portfolio

  // ---- Fresh names ----

  lemma {:induction false} LongerThanAll(names: set<string>) returns (n: nat)
    ensures forall s :: s in names ==> |s| <= n
    decreases |names|
  {
    if names == {} {
      n := 0;
    } else {
      var s :| s in names;
      n := LongerThanAll(names - {s});
      n := if |s| > n then |s| else n;
    }
  }

  lemma FreshId(names: set<string>) returns (id: string)
    ensures IsLiveId(id) && id !in names
  {
    var n := LongerThanAll(names);
    id := LIVE_PREFIX + seq(n, i => 'x');
    assert |id| == |LIVE_PREFIX| + n;
  }

  lemma {:induction false} FreshTask(tasks: set<Task>) returns (t: Task)
    ensures forall u :: u in tasks ==> u < t
    decreases |tasks|
  {
    if tasks == {} {
      t := 0;
    } else {
      var u :| u in tasks;
      t := FreshTask(tasks - {u});
      assert forall v :: v in tasks ==> v == u || v in tasks - {u};
      t := if u >= t then u + 1 else t;
    }
  }

  // ---- An order in scope can be validated, funded and recorded ----

  function GoodReads(order: NewOrder): Reads
    requires order.price.Some?
  {
    Reads(Some(MarketInfo(0, 0, None, None, 0)),
          Some(if order.side == Buy then map[order.symbol.quote := Mul(order.quantity, order.price.value)]
               else map[order.symbol.base := order.quantity]),
          true)
  }

  lemma GoodReadsValidate(cfg: Config, order: NewOrder)
    requires InScope(cfg, order)
    ensures ValidateOrder(cfg, order, GoodReads(order)).None?
  {
    hide Mul;
  }

  // The portfolio covers the order.
  predicate Covers(cfg: Config, stored: Stored, order: NewOrder) {
    && stored.Loaded?
    && (order.side == Sell ==> stored.portfolio.Held(order.symbol) >= order.quantity)
    && (cfg.Reserves(order) ==>
          && order.clientOrderId !in stored.portfolio.reservations
          && stored.portfolio.DeployableQuote(order.symbol.quote) >= QuoteCost(order, cfg.reservation.value))
  }

  // What is left after the order took its share.
  function Afterwards(cfg: Config, stored: Stored, order: NewOrder): Stored {
    if cfg.Reserves(order) then ReserveQuote(stored, cfg.reservation.value, order, true).0 else stored
  }

  lemma CoveredIsReserved(cfg: Config, stored: Stored, order: NewOrder)
    requires Covers(cfg, stored, order) && Placeable(cfg, order)
    ensures GuardBlock(stored, order).None?
    ensures cfg.Reserves(order) ==> ReserveQuote(stored, cfg.reservation.value, order, true).1.None?
  {
    hide QuoteCost, InScope;
  }

  // A section that can run and write, for a new order nothing else blocks.
  ghost predicate Ready(cfg: Config, w: World, t: Task) {
    && t in w.sections
    && w.Runnable(t) && w.CanWrite(w.sections[t].process)
    && w.sections[t].order.clientOrderId !in w.orders
    && Placeable(cfg, w.sections[t].order)
  }

  lemma ReadyStays(cfg: Config, w: World, v: World, t: Task)
    requires Ready(cfg, w, t) && v.orders == w.orders && v.held == w.held && v.lockFile == w.lockFile
    requires t in v.sections && v.sections == w.sections[t := v.sections[t]]
    requires v.sections[t].order == w.sections[t].order && v.sections[t].process == w.sections[t].process
    ensures Ready(cfg, v, t)
  {
    hide Placeable;
  }

  // The section after its reservation, and the world after its CREATED record.
  function Funding(cfg: Config, w: World, t: Task): World
    requires t in w.sections
  {
    var s := w.sections[t];
    w.(stored := Afterwards(cfg, w.stored, s.order),
       sections := w.sections[t := s.(stage := Funded, reserved := s.reserved || cfg.Reserves(s.order))])
  }

  function Persisting(cfg: Config, w: World, t: Task): World
    requires t in w.sections
  {
    var s := w.sections[t];
    var order := s.order;
    w.(orders := w.orders[order.clientOrderId := Recorded(order, Created, None)],
       stored := Afterwards(cfg, w.stored, order),
       sections := w.sections[t := s.(stage := Persisted, reserved := s.reserved || cfg.Reserves(order))])
  }

  lemma ValidatePasses(cfg: Config, w: World, t: Task)
    requires Ready(cfg, w, t) && w.sections[t].stage.Validating?
    ensures Step(cfg, w, Validate(t, GoodReads(w.sections[t].order))) == w.To(t, Checked)
  {
    GoodReadsValidate(cfg, w.sections[t].order);
    hide ValidateOrder, GoodReads;
  }

  lemma CheckPasses(cfg: Config, w: World, t: Task)
    requires Ready(cfg, w, t) && w.sections[t].stage.Checked? && Covers(cfg, w.stored, w.sections[t].order)
    ensures Step(cfg, w, Advance(t, true, true)) == w.To(t, Claimed)
  {
    CoveredIsReserved(cfg, w.stored, w.sections[t].order);
    hide GuardBlock, Placeable, Covers;
  }

  lemma FundPasses(cfg: Config, w: World, t: Task)
    requires Ready(cfg, w, t) && w.sections[t].stage.Claimed? && Covers(cfg, w.stored, w.sections[t].order)
    ensures Step(cfg, w, Advance(t, true, true)) == Funding(cfg, w, t)
  {
    CoveredIsReserved(cfg, w.stored, w.sections[t].order);
    hide ReserveQuote, Placeable, Covers, ManagedStore.ReleaseQuote;
  }

  lemma PersistPasses(cfg: Config, w: World, t: Task)
    requires Ready(cfg, w, t) && w.sections[t].stage.Funded?
    ensures Step(cfg, w, Advance(t, true, true))
        == w.Save(Recorded(w.sections[t].order, Created, None)).To(t, Persisted)
  {
    hide Recorded, Placeable, ManagedStore.ReleaseQuote;
  }

  function Proceeding(order: NewOrder, t: Task): seq<Event>
    requires order.price.Some?
  {
    [Validate(t, GoodReads(order)), Advance(t, true, true), Advance(t, true, true), Advance(t, true, true)]
  }

  lemma Proceeds(cfg: Config, w: World, t: Task)
    requires Ready(cfg, w, t) && w.sections[t].stage.Validating? && Covers(cfg, w.stored, w.sections[t].order)
    ensures Run(cfg, w, Proceeding(w.sections[t].order, t)) == Persisting(cfg, w, t)
  {
    var order := w.sections[t].order;
    var w1 := w.To(t, Checked);
    var w2 := w1.To(t, Claimed);
    var w3 := Funding(cfg, w2, t);
    ReadyStays(cfg, w, w1, t);
    ReadyStays(cfg, w, w2, t);
    ReadyStays(cfg, w, w3, t);
    ValidatePasses(cfg, w, t);
    CheckPasses(cfg, w1, t);
    FundPasses(cfg, w2, t);
    PersistPasses(cfg, w3, t);
    hide Step, Afterwards, Ready, Covers, GoodReads;
    assert Step(cfg, w3, Advance(t, true, true)) == Persisting(cfg, w, t);
    RunFour(cfg, w, Validate(t, GoodReads(order)), Advance(t, true, true), w1, w2, w3);
  }

  // ---- The section that holds the lock ----

  ghost predicate HeldBySection(w: World) {
    forall p :: p in w.held ==> exists t :: t in w.sections && w.sections[t].owner && w.sections[t].process == p
  }

  lemma HolderStays(w: World, v: World)
    requires HeldBySection(w) && v.held <= w.held
    requires forall t :: t in w.sections && w.sections[t].owner && w.sections[t].process in v.held
               ==> t in v.sections && v.sections[t].owner && v.sections[t].process == w.sections[t].process
    ensures HeldBySection(v)
  {
  }

  lemma EnterKeepsHolder(w: World, t: Task, id: string)
    requires HeldBySection(w) && OneOwner(w) && CanEnter(w, t, id)
    ensures HeldBySection(EnterSection(w, t, id))
  {
    var v := EnterSection(w, t, id);
    var p := w.minted[id].process;
    if p in w.held {
      HolderStays(w, v);
    } else {
      assert t in v.sections && v.sections[t].owner && v.sections[t].process == p;
    }
  }

  // A section keeps its lock until it leaves.
  predicate KeepsLock(w: World, v: World, t: Task)
    requires t in w.sections
  {
    && v.held == w.held && v.lockFile == w.lockFile && t in v.sections && v.sections == w.sections[t := v.sections[t]]
    && v.sections[t].owner == w.sections[t].owner && v.sections[t].process == w.sections[t].process
  }

  lemma FundKeepsLock(cfg: Config, w: World, t: Task, canSave: bool, canRelease: bool)
    requires t in w.sections
    ensures KeepsLock(w, Fund(cfg, w, t, canSave, canRelease), t) && KeepsLock(w, Persist(w, t, canSave, canRelease), t)
  {
    hide ReserveQuote, ManagedStore.ReleaseQuote, Recorded;
  }

  lemma RecordKeepsLock(cfg: Config, w: World, t: Task, answer: Answer, canSave: bool, canRelease: bool)
    requires t in w.sections
    ensures KeepsLock(w, Record(cfg, w, t, answer, canSave, canRelease), t)
  {
    hide ManagedStore.ReleaseQuote, Outcome;
  }

  lemma AdvanceKeepsLock(cfg: Config, w: World, t: Task, saved: bool, released: bool)
    requires t in w.sections
    ensures var v := AdvanceSection(cfg, w, t, saved, released); KeepsLock(w, v, t) || v == Leave(w, t)
  {
    var s := w.sections[t];
    var canSave := saved && w.CanWrite(s.process);
    var canRelease := released && w.CanWrite(s.process);
    match s.stage
    case Validating => MoveKeepsLock(w, w, t, Validating);
    case Awaiting => MoveKeepsLock(w, w, t, Awaiting);
    case Checked => MoveKeepsLock(w, w, t, Claimed); MoveKeepsLock(w, w, t, Closing);
    case Claimed => FundKeepsLock(cfg, w, t, canSave, canRelease);
    case Funded => FundKeepsLock(cfg, w, t, canSave, canRelease);
    case Persisted => MoveKeepsLock(w, w.(calls := w.calls + [s.order.clientOrderId]), t, Awaiting);
    case Answered(answer) => RecordKeepsLock(cfg, w, t, answer, canSave, canRelease);
    case Fallback => MoveKeepsLock(w, if canSave then w.Save(Outcome(s.order, OtherError)) else w, t, Closing);
    case Refunded => MoveKeepsLock(w, if canSave then w.Save(Outcome(s.order, DefiniteRejection)) else w, t, Closing);
    case Closing =>
      hide GuardBlock, Fund, Persist, Record, Outcome, Leave, KeepsLock;
  }

  lemma MoveKeepsLock(w: World, v: World, t: Task, stage: Stage)
    requires t in w.sections && v.sections == w.sections && v.held == w.held && v.lockFile == w.lockFile
    ensures KeepsLock(w, v.To(t, stage), t)
    ensures stage == w.sections[t].stage ==> KeepsLock(w, v, t)
  {
  }

  lemma AdvanceKeepsHolder(cfg: Config, w: World, t: Task, saved: bool, released: bool)
    requires HeldBySection(w) && OneOwner(w) && t in w.sections
    ensures HeldBySection(AdvanceSection(cfg, w, t, saved, released))
  {
    AdvanceKeepsLock(cfg, w, t, saved, released);
    hide AdvanceSection;
    HolderStays(w, AdvanceSection(cfg, w, t, saved, released));
  }

  lemma OtherStepsKeepHolder(cfg: Config, w: World, e: Event)
    requires HeldBySection(w) && !e.Enter? && !e.Advance?
    ensures HeldBySection(Step(cfg, w, e))
  {
    hide CanMint, ValidateOrder, KeepsProtected, ResolveCreated, Attested, Adopt, CanAttest, AdvanceSection, CanEnter,
        HeldBySection;
    HolderStays(w, Step(cfg, w, e));
  }

  lemma StepKeepsHolder(cfg: Config, w: World, e: Event)
    requires HeldBySection(w) && OneOwner(w)
    ensures HeldBySection(Step(cfg, w, e))
  {
    hide HeldBySection, OneOwner, AdvanceSection, CanEnter, EnterSection;
    if e.Enter? {
      if CanEnter(w, e.task, e.id) { EnterKeepsHolder(w, e.task, e.id); }
    } else if e.Advance? {
      if w.Runnable(e.task) { AdvanceKeepsHolder(cfg, w, e.task, e.saved, e.released); }
    } else {
      OtherStepsKeepHolder(cfg, w, e);
    }
  }

  lemma {:induction false} RunKeepsHolder(cfg: Config, w: World, es: seq<Event>)
    requires Start(w) && AtMostOneInFlight(w.orders) && Disciplined(cfg, w, es)
    ensures HeldBySection(Run(cfg, w, es)) && Guarded(cfg, Run(cfg, w, es))
    decreases |es|
  {
    StartIsGuarded(cfg, w);
    RunIsGuarded(cfg, w, es);
    if es != [] {
      var rest := es[..|es| - 1];
      assert forall i :: 0 <= i < |rest| ==> rest[..i] == es[..i];
      RunKeepsHolder(cfg, w, rest);
      hide Orderly, AtMostOneInFlight, Matches;
      StepKeepsHolder(cfg, Run(cfg, w, rest), es[|es| - 1]);
    }
  }

  // ---- The continuation ----

  // A portfolio that pays for the order twice, once under each of two ids.
  function Rich(cfg: Config, order: NewOrder): Stored
    requires cfg.Reserves(order) ==> QuoteCost(order, cfg.reservation.value) > 0
  {
    var cost := if cfg.Reserves(order) then QuoteCost(order, cfg.reservation.value) else 0;
    Loaded(P.EMPTY.(cash := map[order.symbol.quote := cost + cost],
                    positions := map[order.symbol := P.Position(order.quantity, 0, 0, None)]))
  }

  lemma RichPaysTwice(cfg: Config, order: NewOrder, id: string)
    requires Placeable(cfg, order) && id != order.clientOrderId
    ensures var other := order.(clientOrderId := id);
            && Placeable(cfg, other) && Covers(cfg, Rich(cfg, order), other)
            && Covers(cfg, Afterwards(cfg, Rich(cfg, order), other), order)
  {
    var other := order.(clientOrderId := id);
    assert cfg.Reserves(order) ==> QuoteCost(other, cfg.reservation.value) == QuoteCost(order, cfg.reservation.value);
    hide QuoteCost;
  }

  lemma RunnableWhen(w: World, v: World, t: Task)
    requires t in w.sections && w.CpuFree(w.sections[t].process)
    requires t in v.sections && v.sections == w.sections[t := v.sections[t]]
        && v.sections[t].process == w.sections[t].process
    ensures v.Runnable(t)
  {
  }

  // The holder fails validation and leaves; with nothing in flight the portfolio can be replaced.
  function Left(w: World, o: Task, replaced: Stored): World {
    w.(sections := w.sections - {o}, lockFile := None, held := {}, stored := replaced)
  }

  function Leaving(o: Task, p: Process, replaced: Stored): seq<Event> {
    [Validate(o, Reads(None, None, false)), Advance(o, true, true), ManagedWrite(p, replaced)]
  }

  lemma HolderLeaves(cfg: Config, w: World, o: Task, replaced: Stored)
    requires o in w.sections && w.sections[o].owner && w.sections[o].stage.Validating?
        && w.CpuFree(w.sections[o].process)
    requires !HasInFlight(w.orders) && w.held == {w.sections[o].process}
    ensures Run(cfg, w, Leaving(o, w.sections[o].process, replaced)) == Left(w, o, replaced)
  {
    var p := w.sections[o].process;
    var w1 := w.To(o, Closing);
    RunnableWhen(w, w, o);
    RunnableWhen(w, w1, o);
    assert Step(cfg, w, Validate(o, Reads(None, None, false))) == w1;
    assert Step(cfg, w1, Advance(o, true, true)) == Left(w, o, w.stored);
    ReplacePortfolio(cfg, w, o, replaced);
    hide Left;
    RunThree(cfg, w, Validate(o, Reads(None, None, false)), Advance(o, true, true), ManagedWrite(p, replaced));
  }

  lemma ReplacePortfolio(cfg: Config, w: World, o: Task, replaced: Stored)
    requires o in w.sections && w.CpuFree(w.sections[o].process) && !HasInFlight(w.orders)
    ensures Step(cfg, Left(w, o, w.stored), ManagedWrite(w.sections[o].process, replaced)) == Left(w, o, replaced)
  {
    assert KeepsProtected(Left(w, o, w.stored), replaced);
    hide KeepsProtected, HasInFlight;
  }

  // ---- Every overlap can break the guard ----

  // The event calls the exchange for an order that is not recorded alone in flight with its cost
  // reserved.
  ghost predicate UnbackedCall(cfg: Config, w: World, e: Event) {
    Step(cfg, w, e).calls != w.calls && !BackedCall(cfg, w, e)
  }

  // The same order under another id, submitted by the same process once the lock file is gone.
  function Entered(w: World, p: Process, rival: NewOrder, t: Task): World {
    w.(minted := w.minted[rival.clientOrderId := Mint(p, rival)],
       lockFile := Some(p), held := {p},
       sections := w.sections[t := Section(p, rival, Validating, true, false)])
  }

  lemma RivalEnters(cfg: Config, w: World, p: Process, rival: NewOrder, t: Task)
    requires w.held == {} && w.lockFile.None? && w.CpuFree(p) && !HasInFlight(w.orders)
    requires t !in w.sections && CanMint(w, rival)
    ensures Step(cfg, Step(cfg, w, MintId(p, rival)), Enter(t, rival.clientOrderId)) == Entered(w, p, rival, t)
    ensures !Overlap(cfg, Step(cfg, w, MintId(p, rival)), t, rival.clientOrderId)
  {
    hide HasInFlight;
    assert w.held + {p} == {p};
  }

  lemma EnteredIsReady(cfg: Config, w: World, p: Process, rival: NewOrder, t: Task)
    requires w.CpuFree(p) && t !in w.sections && rival.clientOrderId !in w.orders && Placeable(cfg, rival)
    ensures Ready(cfg, Entered(w, p, rival, t), t)
  {
    hide Placeable;
  }

  // Its exchange call is open, and a nested section of the process can go on.
  function Called(cfg: Config, w: World, p: Process, rival: NewOrder, t: Task): World {
    var v := Persisting(cfg, Entered(w, p, rival, t), t);
    v.(calls := v.calls + [rival.clientOrderId]).To(t, Awaiting)
  }

  lemma RivalIsCalled(cfg: Config, w: World, p: Process, rival: NewOrder, t: Task)
    requires w.CpuFree(p) && t !in w.sections && rival.clientOrderId !in w.orders
    requires Placeable(cfg, rival) && Covers(cfg, w.stored, rival)
    ensures Run(cfg, Entered(w, p, rival, t), Proceeding(rival, t) + [Advance(t, true, true)])
        == Called(cfg, w, p, rival, t)
  {
    var u := Entered(w, p, rival, t);
    EnteredIsReady(cfg, w, p, rival, t);
    Proceeds(cfg, u, t);
    var v := Persisting(cfg, u, t);
    assert u.CpuFree(p) by { assert u.Runnable(t); }
    RunnableWhen(u, v, t);
    assert Step(cfg, v, Advance(t, true, true)) == Called(cfg, w, p, rival, t) by {
      hide Afterwards, Recorded, Placeable, Covers;
    }
    hide Step, Ready, Proceeding, Placeable, Covers, Called, Persisting;
    RunAppend(cfg, u, Proceeding(rival, t), Advance(t, true, true));
  }

  // The nested section's order is still free, and it follows.
  lemma NestedFollows(cfg: Config, w: World, p: Process, rival: NewOrder, t: Task, n: Task)
    requires t !in w.sections && n in w.sections && w.sections[n].process == p && w.sections[n].stage.Validating?
    requires w.CpuFree(p) && w.sections[n].order.clientOrderId !in w.orders
    requires rival.clientOrderId != w.sections[n].order.clientOrderId && Placeable(cfg, w.sections[n].order)
    requires Covers(cfg, Afterwards(cfg, w.stored, rival), w.sections[n].order)
    ensures var v := Called(cfg, w, p, rival, t);
            var order := w.sections[n].order;
            && Run(cfg, v, Proceeding(order, n)) == Persisting(cfg, v, n)
            && Persisting(cfg, v, n).orders
                 == w.orders[rival.clientOrderId := Recorded(rival, Created, None)]
                            [order.clientOrderId := Recorded(order, Created, None)]
  {
    var v := Called(cfg, w, p, rival, t);
    assert v.sections == w.sections[t := v.sections[t]] && v.sections[t].stage.Awaiting?;
    assert Ready(cfg, v, n) by { hide Placeable, Covers, Afterwards, Recorded; }
    Proceeds(cfg, v, n);
  }

  // The lock holder behind an overlap is waiting for the reads of its validation.
  lemma HolderWaits(cfg: Config, w: World, t: Task, id: string) returns (o: Task)
    requires Guarded(cfg, w) && HeldBySection(w) && Overlap(cfg, w, t, id)
    ensures o in w.sections && o != t && w.sections[o].owner && w.sections[o].stage.Validating?
    ensures w.sections[o].process == w.minted[id].process && w.held == {w.minted[id].process}
  {
    var p := w.minted[id].process;
    o :| o in w.sections && w.sections[o].owner && w.sections[o].process == p;
    assert Matches(cfg, w, w.sections[o]) && IssuedTo(w, w.sections[o]);
    CreatedIsInFlight(w, w.sections[o].order);
    hide HasInFlight, Placeable, StandsAlone;
    assert !Sync(w.sections[o].stage);
  }

  lemma CreatedIsInFlight(w: World, order: NewOrder)
    ensures StandsAlone(w, order) && IsLiveId(order.clientOrderId) ==> HasInFlight(w.orders)
  {
    assert StandsAlone(w, order) && IsLiveId(order.clientOrderId) ==> InFlight(w.orders, order.clientOrderId);
  }

  // The holder `o` waits, the nested section `n` waits behind it, and nothing is in flight.
  ghost predicate Exposed(cfg: Config, w: World, o: Task, n: Task) {
    && o in w.sections && w.sections[o].owner && w.sections[o].stage.Validating?
    && w.CpuFree(w.sections[o].process) && w.held == {w.sections[o].process} && !HasInFlight(w.orders)
    && n in w.sections && n != o && w.sections[n].process == w.sections[o].process && w.sections[n].stage.Validating?
    && w.sections[n].order.clientOrderId !in w.orders && IsLiveId(w.sections[n].order.clientOrderId)
    && Placeable(cfg, w.sections[n].order)
  }

  // A rival copy of the nested order under a fresh id, for a free task.
  ghost predicate IsRival(w: World, n: Task, rival: NewOrder, t: Task)
    requires n in w.sections
  {
    && t !in w.sections && CanMint(w, rival) && rival.clientOrderId !in w.orders
    && rival == w.sections[n].order.(clientOrderId := rival.clientOrderId) && rival != w.sections[n].order
  }

  // The world after the holder left, the rival's call and the nested CREATED record.
  function Broken(cfg: Config, w: World, o: Task, n: Task, rival: NewOrder, t: Task): World
    requires n in w.sections && o in w.sections && o != n && t !in w.sections && Placeable(cfg, w.sections[n].order)
  {
    var w1 := Left(w, o, Rich(cfg, w.sections[n].order));
    Persisting(cfg, Called(cfg, w1, w.sections[o].process, rival, t), n)
  }

  function BreakingEvents(cfg: Config, w: World, o: Task, n: Task, rival: NewOrder, t: Task): seq<Event>
    requires n in w.sections && o in w.sections && Placeable(cfg, w.sections[n].order) && Placeable(cfg, rival)
  {
    var order, p := w.sections[n].order, w.sections[o].process;
    Leaving(o, p, Rich(cfg, order)) + [MintId(p, rival)] + [Enter(t, rival.clientOrderId)]
      + (Proceeding(rival, t) + [Advance(t, true, true)]) + Proceeding(order, n)
  }

  lemma TwoInFlight(cfg: Config, w: World, o: Task, n: Task, rival: NewOrder, t: Task)
    requires Exposed(cfg, w, o, n) && IsRival(w, n, rival, t)
    ensures Placeable(cfg, rival)
    ensures !AtMostOneInFlight(Broken(cfg, w, o, n, rival, t).orders)
  {
    var order := w.sections[n].order;
    RichPaysTwice(cfg, order, rival.clientOrderId);
    var v := Broken(cfg, w, o, n, rival, t);
    hide Rich, Afterwards, Placeable, HasInFlight;
    assert InFlight(v.orders, rival.clientOrderId) && InFlight(v.orders, order.clientOrderId);
  }

  // What the steps after the holder's leaving rely on.
  lemma LeftIsFree(cfg: Config, w: World, o: Task, n: Task, rival: NewOrder, t: Task)
    requires Exposed(cfg, w, o, n) && IsRival(w, n, rival, t)
    ensures var p, order := w.sections[o].process, w.sections[n].order;
            var w1 := Left(w, o, Rich(cfg, order));
            && w1.held == {} && w1.lockFile.None? && w1.CpuFree(p) && !HasInFlight(w1.orders) && w1.orders == w.orders
            && t !in w1.sections && CanMint(w1, rival) && n in w1.sections && w1.sections[n] == w.sections[n]
            && Placeable(cfg, rival) && Covers(cfg, w1.stored, rival)
            && Covers(cfg, Afterwards(cfg, w1.stored, rival), order)
  {
    RichPaysTwice(cfg, w.sections[n].order, rival.clientOrderId);
    hide Rich, Afterwards, Covers, Placeable, HasInFlight;
  }

  // The nested section then calls the exchange while the rival is in flight.
  lemma NestedCallIsUnbacked(cfg: Config, w: World, o: Task, n: Task, rival: NewOrder, t: Task)
    requires Exposed(cfg, w, o, n) && IsRival(w, n, rival, t)
    ensures Placeable(cfg, rival)
    ensures UnbackedCall(cfg, Broken(cfg, w, o, n, rival, t), Advance(n, true, true))
  {
    LeftIsFree(cfg, w, o, n, rival, t);
    var order := w.sections[n].order;
    var v, e := Broken(cfg, w, o, n, rival, t), Advance(n, true, true);
    hide Rich, Afterwards, Placeable, HasInFlight, Covers;
    assert v.Runnable(n) && v.sections[n].stage.Persisted? && v.sections[n].order == order;
    assert Step(cfg, v, e).calls == v.calls + [order.clientOrderId];
    assert InFlight(v.orders, rival.clientOrderId) && rival.clientOrderId != order.clientOrderId;
    hide Step, Broken;
    forall other: NewOrder | Step(cfg, v, e).calls == v.calls + [other.clientOrderId] ensures !StandsAlone(v, other) {
      assert (v.calls + [other.clientOrderId])[|v.calls|] == other.clientOrderId;
      assert (v.calls + [order.clientOrderId])[|v.calls|] == order.clientOrderId;
    }
  }

  lemma BreakingRun(cfg: Config, w: World, o: Task, n: Task, rival: NewOrder, t: Task) returns (es: seq<Event>)
    requires Exposed(cfg, w, o, n) && IsRival(w, n, rival, t)
    ensures Disciplined(cfg, w, es) && !AtMostOneInFlight(Run(cfg, w, es).orders)
    ensures UnbackedCall(cfg, Run(cfg, w, es), Advance(n, true, true))
  {
    TwoInFlight(cfg, w, o, n, rival, t);
    NestedCallIsUnbacked(cfg, w, o, n, rival, t);
    LeftIsFree(cfg, w, o, n, rival, t);
    es := BreakingEvents(cfg, w, o, n, rival, t);
    BreakingRuns(cfg, w, o, n, rival, t);
    BreakingIsDisciplined(cfg, w, o, n, rival, t);
    hide BreakingEvents, Broken, Exposed, IsRival, AtMostOneInFlight, Disciplined, Run, UnbackedCall;
  }

  lemma BreakingRuns(cfg: Config, w: World, o: Task, n: Task, rival: NewOrder, t: Task)
    requires Exposed(cfg, w, o, n) && IsRival(w, n, rival, t) && Placeable(cfg, rival)
    ensures Run(cfg, w, BreakingEvents(cfg, w, o, n, rival, t)) == Broken(cfg, w, o, n, rival, t)
  {
    var p, order := w.sections[o].process, w.sections[n].order;
    var rich := Rich(cfg, order);
    var w1 := Left(w, o, rich);
    LeftIsFree(cfg, w, o, n, rival, t);
    assert w.held == {p};
    HolderLeaves(cfg, w, o, rich);
    hide Step, Run, Left, Rich, Entered, Called, Persisting, Covers, Afterwards, Placeable, HasInFlight, Proceeding,
        Leaving;
    RivalEnters(cfg, w1, p, rival, t);
    RivalIsCalled(cfg, w1, p, rival, t);
    NestedFollows(cfg, w1, p, rival, t, n);
    var mint := Leaving(o, p, rich) + [MintId(p, rival)];
    var enter := mint + [Enter(t, rival.clientOrderId)];
    var called := enter + (Proceeding(rival, t) + [Advance(t, true, true)]);
    RunAppend(cfg, w, Leaving(o, p, rich), MintId(p, rival));
    RunAppend(cfg, w, mint, Enter(t, rival.clientOrderId));
    RunConcat(cfg, w, enter, Proceeding(rival, t) + [Advance(t, true, true)]);
    RunConcat(cfg, w, called, Proceeding(order, n));
  }

  // Its only entry finds the lock free.
  lemma BreakingIsDisciplined(cfg: Config, w: World, o: Task, n: Task, rival: NewOrder, t: Task)
    requires Exposed(cfg, w, o, n) && IsRival(w, n, rival, t) && Placeable(cfg, rival)
    ensures Disciplined(cfg, w, BreakingEvents(cfg, w, o, n, rival, t))
  {
    var p, order := w.sections[o].process, w.sections[n].order;
    var rich := Rich(cfg, order);
    var w1 := Left(w, o, rich);
    LeftIsFree(cfg, w, o, n, rival, t);
    assert w.held == {p};
    HolderLeaves(cfg, w, o, rich);
    RivalEnters(cfg, w1, p, rival, t);
    var es := BreakingEvents(cfg, w, o, n, rival, t);
    var mint := Leaving(o, p, rich) + [MintId(p, rival)];
    assert |mint| == 4 && es[..4] == mint && es[4] == Enter(t, rival.clientOrderId);
    assert forall i :: 0 <= i < |es| && es[i].Enter? ==> i == 4;
    hide Step, Run, Left, Rich, Entered, Covers, Afterwards, Placeable, HasInFlight, Overlap;
    RunAppend(cfg, w, Leaving(o, p, rich), MintId(p, rival));
  }

  lemma OverlapBreaksGuard(cfg: Config, w: World, n: Task, id: string) returns (es: seq<Event>)
    requires Guarded(cfg, w) && HeldBySection(w) && Overlap(cfg, w, n, id)
    ensures Disciplined(cfg, Step(cfg, w, Enter(n, id)), es)
    ensures !AtMostOneInFlight(Run(cfg, Step(cfg, w, Enter(n, id)), es).orders)
    ensures UnbackedCall(cfg, Run(cfg, Step(cfg, w, Enter(n, id)), es), Advance(n, true, true))
  {
    var o := HolderWaits(cfg, w, n, id);
    var v := EnterSection(w, n, id);
    var rivalId := FreshId(v.minted.Keys + v.orders.Keys);
    var t := FreshTask(v.sections.Keys);
    assert Keyed(w);
    assert v.CpuFree(w.minted[id].process);
    hide HasInFlight, Placeable, Guarded, HeldBySection, BreakingEvents, Broken, Disciplined, UnbackedCall;
    es := BreakingRun(cfg, v, o, n, w.minted[id].order.(clientOrderId := rivalId), t);
  }

  // In a state a disciplined run reaches, an event is an overlap exactly when some disciplined
  // continuation after it has two live orders in flight.
  lemma OverlapIffUnsafe(cfg: Config, start: World, past: seq<Event>, e: Event)
    requires Start(start) && AtMostOneInFlight(start.orders) && Disciplined(cfg, start, past)
    ensures var w := Run(cfg, start, past);
            (e.Enter? && Overlap(cfg, w, e.task, e.id))
            <==> exists es ::
                   Disciplined(cfg, Step(cfg, w, e), es) && !AtMostOneInFlight(Run(cfg, Step(cfg, w, e), es).orders)
  {
    var w := Run(cfg, start, past);
    RunKeepsHolder(cfg, start, past);
    hide Overlap, Step;
    if e.Enter? && Overlap(cfg, w, e.task, e.id) {
      var es := OverlapBreaksGuard(cfg, w, e.task, e.id);
    } else {
      StepKeepsGuarded(cfg, w, e);
      forall es | Disciplined(cfg, Step(cfg, w, e), es)
        ensures AtMostOneInFlight(Run(cfg, Step(cfg, w, e), es).orders)
      {
        RunIsGuarded(cfg, Step(cfg, w, e), es);
      }
    }
  }

  // The same for the calls of the exchange: an event is an overlap exactly when some disciplined
  // continuation after it makes a call that nothing backs.
  lemma OverlapIffUnbackedCall(cfg: Config, start: World, past: seq<Event>, e: Event)
    requires Start(start) && AtMostOneInFlight(start.orders) && Disciplined(cfg, start, past)
    ensures var w := Run(cfg, start, past);
            (e.Enter? && Overlap(cfg, w, e.task, e.id))
            <==> exists es, call ::
                   Disciplined(cfg, Step(cfg, w, e), es) && UnbackedCall(cfg, Run(cfg, Step(cfg, w, e), es), call)
  {
    var w := Run(cfg, start, past);
    RunKeepsHolder(cfg, start, past);
    hide Overlap, Step, UnbackedCall;
    if e.Enter? && Overlap(cfg, w, e.task, e.id) {
      var es := OverlapBreaksGuard(cfg, w, e.task, e.id);
    } else {
      StepKeepsGuarded(cfg, w, e);
      forall es, call | Disciplined(cfg, Step(cfg, w, e), es)
        ensures !UnbackedCall(cfg, Run(cfg, Step(cfg, w, e), es), call)
      {
        RunIsGuarded(cfg, Step(cfg, w, e), es);
        GuardedHasNoUnbackedCall(cfg, Run(cfg, Step(cfg, w, e), es), call);
      }
    }
  }

  lemma GuardedHasNoUnbackedCall(cfg: Config, w: World, e: Event)
    requires Guarded(cfg, w)
    ensures !UnbackedCall(cfg, w, e)
  {
    hide Guarded, Step, BackedCall;
    if Step(cfg, w, e).calls != w.calls { GuardedCallIsBacked(cfg, w, e); }
  }

  // The overlap is reachable from an empty ledger: one process enters two submissions before the
  // first is validated, as two cycles of the live engine can.
  lemma OverlapIsReachable(cfg: Config, order: NewOrder, stored: Stored)
    requires Placeable(cfg, order) && IsLiveId(order.clientOrderId)
    ensures exists start, past, t, id ::
              && Start(start) && start.stored == stored && AtMostOneInFlight(start.orders)
              && Disciplined(cfg, start, past) && Overlap(cfg, Run(cfg, start, past), t, id)
  {
    var rivalId := FreshId({order.clientOrderId});
    var first, second := order.(clientOrderId := rivalId), order;
    var start := World(map[], stored, None, {}, map[], map[], [], {}, {});
    var w1 := start.(minted := map[rivalId := Mint(0, first)]);
    var w2 := w1.(minted := map[rivalId := Mint(0, first), second.clientOrderId := Mint(0, second)]);
    var w3 := w2.(lockFile := Some(0), held := {0}, sections := map[0 := Section(0, first, Validating, true, false)]);
    assert w2.held + {0} == {0};
    var past := [MintId(0, first), MintId(0, second), Enter(0, rivalId)];
    assert Step(cfg, start, past[0]) == w1 && Step(cfg, w1, past[1]) == w2 && Step(cfg, w2, past[2]) == w3;
    RunThree(cfg, start, past[0], past[1], past[2]);
    assert Overlap(cfg, w3, 1, second.clientOrderId);
    RunTwo(cfg, start, past[0], past[1]);
    hide Step, Placeable;
    assert past[..2] == [past[0], past[1]];
    assert Disciplined(cfg, start, past);
  }
}
