/**
 The single-use authorization of a controlled live test (src/execution/ControlledLiveAuthorization.ts):
 an issued token authorizes at most one order, of its own side and within its caps, and a value
 that this process did not issue authorizes nothing.
 */
module ControlledLiveAuthorization {
  import opened Wrappers
  import opened Money
  import opened Orders

  datatype Scope = Scope(side: Side, orderType: OrderType, maxBaseQuantity: Money, maxQuoteNotional: Money)

  datatype Authorization = Authorization(scope: Scope, token: string)

  predicate IsValidScope(s: Scope) {
    s.orderType == Limit && s.maxBaseQuantity > 0 && s.maxQuoteNotional > 0
  }

  predicate Permits(s: Scope, order: NewOrder) {
    && order.orderType == Limit && order.side == s.side
    && 0 < order.quantity <= s.maxBaseQuantity
    && order.price.Some? && order.price.value > 0
    && Mul(order.quantity, order.price.value) <= s.maxQuoteNotional
  }

  datatype Grant = Grant(token: string, order: NewOrder)

  datatype State = State(issuedScopes: map<string, Scope>, everIssued: map<string, Scope>, grants: seq<Grant>)

  datatype Call =
    | Create(scope: Scope, token: string)
    | Authorize(order: NewOrder, authorization: Authorization)

  const START := State(map[], map[], [])

  predicate Allows(s: State, order: NewOrder, a: Authorization) {
    a.token in s.issuedScopes && IsValidScope(a.scope) && a.scope == s.issuedScopes[a.token] && Permits(a.scope, order)
  }

  function Next(s: State, call: Call): State {
    match call
    case Create(scope, token) =>
      if !IsValidScope(scope) || token in s.everIssued then s
      else s.(issuedScopes := s.issuedScopes[token := scope], everIssued := s.everIssued[token := scope])
    case Authorize(order, a) =>
      if !Allows(s, order, a) then s
      else s.(issuedScopes := s.issuedScopes - {a.token}, grants := s.grants + [Grant(a.token, order)])
  }

  function Run(s: State, calls: seq<Call>): State
    decreases |calls|
  {
    if calls == [] then s else Next(Run(s, calls[..|calls| - 1]), calls[|calls| - 1])
  }

  class AuthorizationRegistry {
    var issuedScopes: map<string, Scope>
    ghost var everIssued: map<string, Scope>
    ghost var grants: seq<Grant>

    constructor ()
      ensures Now() == START
    {
      issuedScopes, everIssued, grants := map[], map[], [];
    }

    ghost function Now(): State
      reads this
    {
      State(issuedScopes, everIssued, grants)
    }

    method Create(scope: Scope, token: string) returns (authorization: Option<Authorization>)
      requires token !in everIssued
      modifies this
      ensures Now() == Next(old(Now()), Call.Create(scope, token))
      ensures authorization == if IsValidScope(scope) then Some(Authorization(scope, token)) else None
    {
      if scope.orderType != Limit || scope.maxBaseQuantity <= 0 || scope.maxQuoteNotional <= 0 { return None; }
      issuedScopes := issuedScopes[token := scope];
      everIssued := everIssued[token := scope];
      authorization := Some(Authorization(scope, token));
    }

    method IsControlledLiveOrder(order: NewOrder, a: Authorization) returns (ok: bool)
      modifies this
      ensures Now() == Next(old(Now()), Authorize(order, a))
      ensures ok <==> old(Allows(Now(), order, a))
    {
      if a.token !in issuedScopes || !IsValidScope(a.scope) || a.scope != issuedScopes[a.token] { return false; }
      if order.orderType != Limit || order.side != a.scope.side { return false; }
      if order.quantity <= 0 || order.quantity > a.scope.maxBaseQuantity { return false; }
      if order.price.None? || order.price.value <= 0 { return false; }
      if Mul(order.quantity, order.price.value) > a.scope.maxQuoteNotional { return false; }
      issuedScopes := issuedScopes - {a.token};
      grants := grants + [Grant(a.token, order)];
      ok := true;
    }
  }

  // A token in the registry has granted nothing, no token granted twice, and every grant is
  // within the scope that was issued for its token.
  ghost predicate SingleUse(s: State) {
    && (forall token :: token in s.issuedScopes ==>
          && token in s.everIssued && s.everIssued[token] == s.issuedScopes[token]
          && forall i :: 0 <= i < |s.grants| ==> s.grants[i].token != token)
    && (forall i :: 0 <= i < |s.grants| ==>
          s.grants[i].token in s.everIssued && Permits(s.everIssued[s.grants[i].token], s.grants[i].order))
    && (forall i, j :: 0 <= i < j < |s.grants| ==> s.grants[i].token != s.grants[j].token)
  }

  lemma NextIsSingleUse(s: State, call: Call)
    requires SingleUse(s)
    ensures SingleUse(Next(s, call))
  {
    hide Permits;
    var t := Next(s, call);
    assert forall i :: 0 <= i < |s.grants| ==> t.grants[i] == s.grants[i];
  }

  lemma {:induction false} EachTokenGrantsOnce(calls: seq<Call>)
    ensures SingleUse(Run(START, calls))
    decreases |calls|
  {
    if calls != [] {
      EachTokenGrantsOnce(calls[..|calls| - 1]);
      NextIsSingleUse(Run(START, calls[..|calls| - 1]), calls[|calls| - 1]);
    }
  }
}
