/**
 The placement budget of an armed autonomous session (src/execution/AutonomousLiveSession.ts):
 a process-local registry of issued sessions and what each has used. Whatever sessions callers
 present, forged or genuine, and in whatever order they create, use and end them, no session ever
 authorizes more than its own scope.
 */
module AutonomousLiveSession {
  import opened Wrappers
  import opened Money
  import opened Orders

  datatype Scope = Scope(
    orderType: OrderType,
    tif: Option<Tif>,
    sides: seq<Side>,
    maxBaseQuantity: Money,
    maxQuoteNotional: Money,
    maxSessionQuoteNotional: Money,
    maxSessionOrders: int,
    expiresAtMs: int)

  // What a caller presents; anybody can build one.
  datatype Session = Session(scope: Scope, token: string)

  datatype SessionState = SessionState(scope: Scope, orders: int, quoteNotional: Money)

  predicate IsValidScope(s: Scope) {
    && s.orderType == Limit && s.tif == Some(Ioc) && |s.sides| > 0
    && s.maxBaseQuantity > 0 && s.maxQuoteNotional > 0 && s.maxSessionQuoteNotional > 0
    && s.maxSessionOrders > 0 && s.expiresAtMs > 0
  }

  // The notional of a priced order.
  function Notional(order: NewOrder): Money {
    Mul(order.quantity, if order.price.Some? then order.price.value else 0)
  }

  // An order the scope permits at a time, leaving the session budget aside.
  predicate Permits(s: Scope, order: NewOrder, nowMs: int) {
    && order.orderType == Limit && order.tif == Some(Ioc) && order.side in s.sides
    && 0 < order.quantity <= s.maxBaseQuantity
    && order.price.Some? && order.price.value > 0
    && Notional(order) <= s.maxQuoteNotional
    && nowMs < s.expiresAtMs
  }

  // ---- The registry as a state, with its history ----

  datatype Grant = Grant(token: string, order: NewOrder, atMs: int)

  datatype State = State(sessions: map<string, SessionState>, issued: map<string, Scope>, grants: seq<Grant>)

  datatype Call =
    | Create(scope: Scope, token: string)
    | End(token: string)
    | Authorize(order: NewOrder, session: Session, nowMs: int)

  const START := State(map[], map[], [])

  predicate IsGenuine(s: State, v: Session, nowMs: int) {
    && v.token in s.sessions && IsValidScope(v.scope) && v.scope == s.sessions[v.token].scope
    && nowMs < s.sessions[v.token].scope.expiresAtMs
  }

  // `evaluateAutonomousLiveOrder`: the session is genuine, and scope and remaining budget allow the order.
  predicate Allows(s: State, order: NewOrder, v: Session, nowMs: int) {
    && IsGenuine(s, v, nowMs)
    && var used := s.sessions[v.token];
       && Permits(used.scope, order, nowMs)
       && used.orders + 1 <= used.scope.maxSessionOrders
       && used.quoteNotional + Notional(order) <= used.scope.maxSessionQuoteNotional
  }

  function Next(s: State, call: Call): State {
    match call
    case Create(scope, token) =>
      // a fresh random token
      if !IsValidScope(scope) || token in s.issued then s
      else s.(sessions := s.sessions[token := SessionState(scope, 0, 0)], issued := s.issued[token := scope])
    case End(token) => s.(sessions := s.sessions - {token})
    case Authorize(order, v, nowMs) =>
      if !Allows(s, order, v, nowMs) then s
      else
        var used := s.sessions[v.token];
        var next := used.(orders := used.orders + 1, quoteNotional := used.quoteNotional + Notional(order));
        s.(sessions := s.sessions[v.token := next],
           grants := s.grants + [Grant(v.token, order, nowMs)])
  }

  function Run(s: State, calls: seq<Call>): State
    decreases |calls|
  {
    if calls == [] then s else Next(Run(s, calls[..|calls| - 1]), calls[|calls| - 1])
  }

  // ---- The registry itself ----

  class SessionRegistry {
    var sessions: map<string, SessionState>
    ghost var issued: map<string, Scope>
    ghost var grants: seq<Grant>

    constructor ()
      ensures Now() == START
    {
      sessions, issued, grants := map[], map[], [];
    }

    ghost function Now(): State
      reads this
    {
      State(sessions, issued, grants)
    }

    method Create(scope: Scope, token: string) returns (session: Option<Session>)
      requires token !in issued
      modifies this
      ensures Now() == Next(old(Now()), Call.Create(scope, token))
      ensures session == if IsValidScope(scope) then Some(Session(scope, token)) else None
    {
      if !IsValidScope(scope) { return None; }
      sessions := sessions[token := SessionState(scope, 0, 0)];
      issued := issued[token := scope];
      session := Some(Session(scope, token));
    }

    method End(token: string)
      modifies this
      ensures Now() == Next(old(Now()), Call.End(token))
    {
      sessions := sessions - {token};
    }

    // The checks in the order of the original; nothing is consumed.
    method Evaluate(order: NewOrder, v: Session, nowMs: int) returns (ok: bool)
      ensures ok <==> Allows(Now(), order, v, nowMs)
    {
      if v.token !in sessions { return false; }
      var used := sessions[v.token];
      if !IsValidScope(v.scope) || v.scope != used.scope || nowMs >= used.scope.expiresAtMs { return false; }
      if order.orderType != Limit || order.tif != Some(Ioc) || order.side !in used.scope.sides { return false; }
      if order.quantity <= 0 || order.quantity > used.scope.maxBaseQuantity { return false; }
      if order.price.None? || order.price.value <= 0 { return false; }
      var notional := Mul(order.quantity, order.price.value);
      if notional > used.scope.maxQuoteNotional || used.orders + 1 > used.scope.maxSessionOrders { return false; }
      ok := used.quoteNotional + notional <= used.scope.maxSessionQuoteNotional;
    }

    method Authorize(order: NewOrder, v: Session, nowMs: int) returns (ok: bool)
      modifies this
      ensures Now() == Next(old(Now()), Call.Authorize(order, v, nowMs))
      ensures ok <==> old(Allows(Now(), order, v, nowMs))
    {
      ok := Evaluate(order, v, nowMs);
      if ok {
        var used := sessions[v.token];
        used := used.(orders := used.orders + 1, quoteNotional := used.quoteNotional + Notional(order));
        sessions := sessions[v.token := used];
        grants := grants + [Grant(v.token, order, nowMs)];
      }
    }
  }

  // ---- Conservation of the budget ----

  // How many orders were granted to a token, and for how much.
  function Count(grants: seq<Grant>, token: string): nat
    decreases |grants|
  {
    if grants == [] then 0
    else Count(grants[..|grants| - 1], token) + if grants[|grants| - 1].token == token then 1 else 0
  }

  function Spent(grants: seq<Grant>, token: string): Money
    decreases |grants|
  {
    if grants == [] then 0
    else Spent(grants[..|grants| - 1], token)
         + if grants[|grants| - 1].token == token then Notional(grants[|grants| - 1].order) else 0
  }

  ghost predicate WithinBudget(s: State, token: string) {
    && token in s.issued
    && IsValidScope(s.issued[token])
    && Count(s.grants, token) <= s.issued[token].maxSessionOrders
    && Spent(s.grants, token) <= s.issued[token].maxSessionQuoteNotional
  }

  // A session's counters are the number and the notional of its grants.
  ghost predicate Counted(s: State, token: string) {
    token in s.sessions ==>
      token in s.issued
          && s.sessions[token] == SessionState(s.issued[token], Count(s.grants, token), Spent(s.grants, token))
  }

  ghost predicate Permitted(s: State, g: Grant) {
    g.token in s.issued && Permits(s.issued[g.token], g.order, g.atMs)
  }

  ghost predicate Conserved(s: State) {
    && (forall token :: Counted(s, token))
    && (forall token :: token in s.issued ==> WithinBudget(s, token))
    && (forall i :: 0 <= i < |s.grants| ==> Permitted(s, s.grants[i]))
  }

  lemma {:induction false} NoGrantsNoCount(grants: seq<Grant>, token: string)
    requires forall i :: 0 <= i < |grants| ==> grants[i].token != token
    ensures Count(grants, token) == 0 && Spent(grants, token) == 0
    decreases |grants|
  {
    if grants != [] {
      NoGrantsNoCount(grants[..|grants| - 1], token);
    }
  }

  lemma GrantCounts(grants: seq<Grant>, g: Grant, token: string)
    ensures Count(grants + [g], token) == Count(grants, token) + (if g.token == token then 1 else 0)
    ensures Spent(grants + [g], token) == Spent(grants, token) + (if g.token == token then Notional(g.order) else 0)
  {
    assert (grants + [g])[..|grants|] == grants;
  }

  lemma GrantKeepsCount(s: State, order: NewOrder, v: Session, nowMs: int, token: string)
    requires Allows(s, order, v, nowMs) && Counted(s, token)
    ensures Counted(Next(s, Authorize(order, v, nowMs)), token)
  {
    GrantCounts(s.grants, Grant(v.token, order, nowMs), token);
    hide Notional, IsValidScope, Permits, Count, Spent;
  }

  lemma GrantKeepsBudget(s: State, order: NewOrder, v: Session, nowMs: int, token: string)
    requires Allows(s, order, v, nowMs) && Counted(s, v.token) && WithinBudget(s, token)
    ensures WithinBudget(Next(s, Authorize(order, v, nowMs)), token)
  {
    GrantCounts(s.grants, Grant(v.token, order, nowMs), token);
    hide Notional, IsValidScope, Permits, Count, Spent;
  }

  lemma AuthorizeConserves(s: State, order: NewOrder, v: Session, nowMs: int)
    requires Conserved(s) && Allows(s, order, v, nowMs)
    ensures Conserved(Next(s, Authorize(order, v, nowMs)))
  {
    var t, g := Next(s, Authorize(order, v, nowMs)), Grant(v.token, order, nowMs);
    assert Permitted(s, g) && t.issued == s.issued && t.grants == s.grants + [g] by {
      assert Counted(s, v.token);
      hide Notional, IsValidScope, Permits;
    }
    hide Allows, Counted, WithinBudget, Permits, Next;
    forall token | Counted(s, token) ensures Counted(t, token) {
      GrantKeepsCount(s, order, v, nowMs, token);
    }
    assert Counted(s, v.token);
    forall token | token in t.issued ensures WithinBudget(t, token) {
      GrantKeepsBudget(s, order, v, nowMs, token);
    }
  }

  lemma CreateConserves(s: State, scope: Scope, token: string)
    requires Conserved(s) && IsValidScope(scope) && token !in s.issued
    ensures Conserved(Next(s, Create(scope, token)))
  {
    var t := Next(s, Create(scope, token));
    assert t == s.(sessions := s.sessions[token := SessionState(scope, 0, 0)], issued := s.issued[token := scope]);
    hide Next, Notional, Permits;
    assert forall i :: 0 <= i < |s.grants| ==> Permitted(s, s.grants[i]) && s.grants[i].token != token;
    NoGrantsNoCount(s.grants, token);
    hide Count, Spent;
    forall k ensures Counted(t, k) {
      assert Counted(s, k);
    }
    forall k | k in t.issued ensures WithinBudget(t, k) {
      if k != token { assert WithinBudget(s, k); }
    }
  }

  lemma EndConserves(s: State, token: string)
    requires Conserved(s)
    ensures Conserved(Next(s, End(token)))
  {
    var t := Next(s, End(token));
    hide IsValidScope, Permits, Count, Spent;
    assert t.issued == s.issued && t.grants == s.grants;
    forall k ensures Counted(t, k) {
      assert Counted(s, k);
    }
    forall k | k in t.issued ensures WithinBudget(t, k) {
      assert WithinBudget(s, k);
    }
    assert forall i :: 0 <= i < |t.grants| ==> Permitted(s, t.grants[i]);
  }

  lemma NextConserves(s: State, call: Call)
    requires Conserved(s)
    ensures Conserved(Next(s, call))
  {
    hide Conserved, Allows, IsValidScope;
    match call
    case Create(scope, token) => if IsValidScope(scope) && token !in s.issued { CreateConserves(s, scope, token); }
    case End(token) => EndConserves(s, token);
    case Authorize(order, v, nowMs) => if Allows(s, order, v, nowMs) { AuthorizeConserves(s, order, v, nowMs); }
  }

  // Over every sequence of calls: a live session's counters are the number and the notional of
  // what it granted, no session, ended or not, ever exceeds its own budget, and every grant is
  // within its scope and before its expiry.
  lemma {:induction false} BudgetConserved(calls: seq<Call>)
    ensures Conserved(Run(START, calls))
    decreases |calls|
  {
    if calls != [] {
      BudgetConserved(calls[..|calls| - 1]);
      NextConserves(Run(START, calls[..|calls| - 1]), calls[|calls| - 1]);
    }
  }

  // Ending a session, or its expiry, is final: its token grants nothing more.
  lemma {:induction false} EndedStaysEnded(s: State, calls: seq<Call>, token: string)
    requires token in s.issued && token !in s.sessions
    ensures Count(Run(s, calls).grants, token) == Count(s.grants, token)
    ensures token in Run(s, calls).issued && token !in Run(s, calls).sessions
    decreases |calls|
  {
    if calls != [] {
      EndedStaysEnded(s, calls[..|calls| - 1], token);
      var t := Run(s, calls[..|calls| - 1]);
      var call := calls[|calls| - 1];
      hide Permits, IsValidScope, Notional;
      if call.Authorize? && Allows(t, call.order, call.session, call.nowMs) {
        GrantCounts(t.grants, Grant(call.session.token, call.order, call.nowMs), token);
      }
    }
  }
}
