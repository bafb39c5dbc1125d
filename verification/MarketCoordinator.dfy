/**
 The multi-market decision of a cycle (src/engine/MarketCoordinator.ts): every symbol is judged
 once in a fixed order, at most one approved trade is selected, and the portfolio exposure given
 to risk is unknown rather than understated. Market data, strategy and risk are one judgement
 with a state of its own; `localeCompare` is any total preorder of symbols; relative spreads are
 ordered keys.
 */
module MarketCoordinator {
  import opened Wrappers
  import opened Money
  import opened Orders

  // ---- Symbols in code-unit order, each once ----

  predicate Less(a: string, b: string) {
    b != "" && (a == "" || a[0] < b[0] || (a[0] == b[0] && Less(a[1..], b[1..])))
  }

  lemma {:induction false} LessIsLinear(a: string, b: string)
    ensures !(Less(a, b) && Less(b, a))
    ensures a != b ==> Less(a, b) || Less(b, a)
    ensures !Less(a, a)
    decreases |a|
  {
    if a != "" && b != "" {
      LessIsLinear(a[1..], b[1..]);
      LessIsLinear(a[1..], a[1..]);
      assert a == [a[0]] + a[1..] && b == [b[0]] + b[1..];
    } else if a != "" {
      LessIsLinear(a[1..], a[1..]);
    }
  }

  lemma {:induction false} LessIsTransitive(a: string, b: string, c: string)
    requires Less(a, b) && Less(b, c)
    ensures Less(a, c)
    decreases |a|
  {
    if a != "" && a[0] == b[0] && b[0] == c[0] {
      LessIsTransitive(a[1..], b[1..], c[1..]);
    }
  }

  ghost predicate StrictlySorted(s: seq<string>) {
    forall i, j :: 0 <= i < j < |s| ==> Less(s[i], s[j])
  }

  function InsertSymbol(x: string, s: seq<string>): seq<string> {
    if s == [] || Less(x, s[0]) then [x] + s
    else if x == s[0] then s
    else [s[0]] + InsertSymbol(x, s[1..])
  }

  // [...new Set(symbols)].sort()
  function Ordered(symbols: seq<string>): seq<string> {
    if symbols == [] then [] else InsertSymbol(symbols[0], Ordered(symbols[1..]))
  }

  lemma {:induction false} InsertSorts(x: string, s: seq<string>)
    requires StrictlySorted(s)
    ensures StrictlySorted(InsertSymbol(x, s))
    ensures forall y :: y in InsertSymbol(x, s) <==> y == x || y in s
    decreases |s|
  {
    if s != [] && Less(x, s[0]) {
      forall j | 0 <= j < |s| ensures Less(x, s[j]) {
        if j > 0 { LessIsTransitive(x, s[0], s[j]); }
      }
    } else if s != [] && x != s[0] {
      LessIsLinear(x, s[0]);
      InsertSorts(x, s[1..]);
      hide Less;
      Prepended(s[0], x, s[1..], InsertSymbol(x, s[1..]));
      assert s == [s[0]] + s[1..];
    }
  }

  // A least element in front of a sorted rest.
  lemma Prepended(first: string, x: string, before: seq<string>, rest: seq<string>)
    requires StrictlySorted(rest) && (forall y :: y in rest <==> y == x || y in before)
    requires Less(first, x) && forall i :: 0 <= i < |before| ==> Less(first, before[i])
    ensures StrictlySorted([first] + rest)
  {
    forall j | 0 <= j < |rest| ensures Less(first, rest[j]) {
      assert rest[j] in rest;
    }
  }

  lemma {:induction false} OrderedSorts(symbols: seq<string>)
    ensures StrictlySorted(Ordered(symbols))
    ensures forall x :: x in Ordered(symbols) <==> x in symbols
    decreases |symbols|
  {
    if symbols != [] {
      OrderedSorts(symbols[1..]);
      InsertSorts(symbols[0], Ordered(symbols[1..]));
      assert symbols == [symbols[0]] + symbols[1..];
    }
  }

  lemma NoMembers<T>(s: seq<T>)
    ensures s == [] || exists x :: x in s
  {
    if s != [] { assert s[0] in s; }
  }

  lemma {:induction false} SortedIsUnique(s: seq<string>, t: seq<string>)
    requires StrictlySorted(s) && StrictlySorted(t)
    requires forall x :: x in s <==> x in t
    ensures s == t
    decreases |s|
  {
    if s == [] {
      NoMembers(t);
    } else {
      assert s[0] in t && (t != [] ==> t[0] in s);
      FirstIsSame(s, t);
      forall x ensures x in s[1..] <==> x in t[1..] {
        RestIsOthers(s, x);
        RestIsOthers(t, x);
      }
      SortedIsUnique(s[1..], t[1..]);
      assert s == [s[0]] + s[1..] && t == [t[0]] + t[1..];
    }
  }

  lemma FirstIsSame(s: seq<string>, t: seq<string>)
    requires StrictlySorted(s) && StrictlySorted(t) && s != [] && t != []
    requires s[0] in t && t[0] in s
    ensures s[0] == t[0]
  {
    LessIsLinear(s[0], t[0]);
  }

  lemma RestIsOthers(s: seq<string>, x: string)
    requires StrictlySorted(s) && s != []
    ensures x in s[1..] <==> x in s && x != s[0]
  {
    LessIsLinear(x, x);
    assert s == [s[0]] + s[1..];
  }

  // ---- The judgement of one cycle ----

  datatype Trade = Trade(symbol: string, side: Side, spread: Option<int>, quantity: Money)

  // Strategy and risk on one symbol: the approved trade, or None when it is skipped, held or rejected.
  type Judge<!S> = (S, string) -> (S, Option<Trade>)

  datatype Cycle<S> = Cycle(state: S, candidates: seq<Trade>)

  function JudgeOne<S>(judge: Judge<S>, c: Cycle<S>, symbol: string): Cycle<S> {
    var (state, verdict) := judge(c.state, symbol);
    Cycle(state, if verdict.Some? then c.candidates + [verdict.value.(symbol := symbol)] else c.candidates)
  }

  function JudgeAll<S>(judge: Judge<S>, start: S, ordered: seq<string>): Cycle<S>
    decreases |ordered|
  {
    if ordered == [] then Cycle(start, [])
    else JudgeOne(judge, JudgeAll(judge, start, ordered[..|ordered| - 1]), ordered[|ordered| - 1])
  }

  // ---- Selection ----

  ghost predicate TotalPreorder<T(!new)>(le: (T, T) -> bool) {
    && (forall a, b :: le(a, b) || le(b, a))
    && (forall a, b, c :: le(a, b) && le(b, c) ==> le(a, c))
  }

  function InsertStable<T>(le: (T, T) -> bool, x: T, s: seq<T>): seq<T> {
    if s == [] then [x] else if le(s[0], x) then [s[0]] + InsertStable(le, x, s[1..]) else [x] + s
  }

  // Array.prototype.sort, which is stable.
  function StableSort<T>(le: (T, T) -> bool, s: seq<T>): seq<T>
    decreases |s|
  {
    if s == [] then [] else InsertStable(le, s[|s| - 1], StableSort(le, s[..|s| - 1]))
  }

  // The first element of a stable sort is the earliest of the least.
  ghost predicate EarliestLeast<T>(le: (T, T) -> bool, s: seq<T>, i: nat)
    requires i < |s|
  {
    (forall j :: 0 <= j < |s| ==> le(s[i], s[j])) && (forall j :: 0 <= j < i ==> !le(s[j], s[i]))
  }

  lemma Compare<T(!new)>(le: (T, T) -> bool, a: T, b: T, c: T)
    requires TotalPreorder(le)
    ensures le(a, b) || le(b, a)
    ensures le(a, b) && le(b, c) ==> le(a, c)
  {
  }

  lemma InsertHead<T>(le: (T, T) -> bool, x: T, s: seq<T>)
    ensures InsertStable(le, x, s) != []
    ensures InsertStable(le, x, s)[0] == if s != [] && le(s[0], x) then s[0] else x
  {
  }

  lemma {:induction false} HeadIsEarliestLeast<T(!new)>(le: (T, T) -> bool, s: seq<T>) returns (i: nat)
    requires TotalPreorder(le) && s != []
    ensures i < |s| && StableSort(le, s) != [] && StableSort(le, s)[0] == s[i] && EarliestLeast(le, s, i)
    decreases |s|
  {
    hide TotalPreorder;
    var init, last := s[..|s| - 1], s[|s| - 1];
    InsertHead(le, last, StableSort(le, init));
    hide InsertStable;
    if init == [] {
      i := 0;
      Compare(le, last, last, last);
      assert StableSort(le, init) == [];
    } else {
      i := HeadIsEarliestLeast(le, init);
      hide StableSort;
      var head := init[i];
      if !le(head, last) {
        i := |s| - 1;
        Compare(le, last, head, last);
        forall j | 0 <= j < |s| - 1 ensures le(last, s[j]) && !le(s[j], last) {
          assert s[j] == init[j];
          Compare(le, last, head, init[j]);
          Compare(le, head, init[j], last);
        }
        Compare(le, last, last, last);
      }
    }
  }

  function OfSide(side: Side, s: seq<Trade>): seq<Trade>
    decreases |s|
  {
    if s == [] then []
    else OfSide(side, s[..|s| - 1]) + if s[|s| - 1].side == side then [s[|s| - 1]] else []
  }

  lemma {:induction false} OfSideFilters(side: Side, s: seq<Trade>)
    ensures forall t :: t in OfSide(side, s) <==> t in s && t.side == side
    decreases |s|
  {
    if s != [] {
      OfSideFilters(side, s[..|s| - 1]);
      assert s == s[..|s| - 1] + [s[|s| - 1]];
    }
  }

  // A missing spread ranks last.
  predicate SpreadLe(a: Option<int>, b: Option<int>) {
    b.None? || (a.Some? && a.value <= b.value)
  }

  function SellLe(locale: (string, string) -> bool): (Trade, Trade) -> bool {
    (a: Trade, b: Trade) => locale(a.symbol, b.symbol)
  }

  predicate BuyBefore(locale: (string, string) -> bool, a: Trade, b: Trade) {
    SpreadLe(a.spread, b.spread) && (SpreadLe(b.spread, a.spread) ==> locale(a.symbol, b.symbol))
  }

  function BuyLe(locale: (string, string) -> bool): (Trade, Trade) -> bool {
    (a: Trade, b: Trade) => BuyBefore(locale, a, b)
  }

  function SelectOne(locale: (string, string) -> bool, candidates: seq<Trade>): Option<Trade> {
    var sells := StableSort(SellLe(locale), OfSide(Sell, candidates));
    var buys := StableSort(BuyLe(locale), OfSide(Buy, candidates));
    if sells != [] then Some(sells[0]) else if buys != [] then Some(buys[0]) else None
  }

  // What the selection promises: an exit before any entry, the least symbol among exits, and the
  // least spread and then symbol among entries.
  ghost predicate Selects(locale: (string, string) -> bool, candidates: seq<Trade>, selected: Option<Trade>)
  {
    match selected
    case None => candidates == []
    case Some(t) =>
      && t in candidates
      && (t.side == Sell <==> exists c :: c in candidates && c.side == Sell)
      && (forall c :: c in candidates && c.side == t.side ==>
            if t.side == Sell then locale(t.symbol, c.symbol)
            else SpreadLe(t.spread, c.spread) && (SpreadLe(c.spread, t.spread) ==> locale(t.symbol, c.symbol)))
  }

  lemma SelectionIsRight(locale: (string, string) -> bool, candidates: seq<Trade>)
    requires TotalPreorder(locale)
    ensures Selects(locale, candidates, SelectOne(locale, candidates))
  {
    var sells, buys := OfSide(Sell, candidates), OfSide(Buy, candidates);
    OfSideFilters(Sell, candidates);
    OfSideFilters(Buy, candidates);
    ComparatorsAreTotal(locale);
    if sells != [] {
      var i := HeadIsEarliestLeast(SellLe(locale), sells);
      assert sells[i] in sells;
    } else if buys != [] {
      assert StableSort(SellLe(locale), sells) == [];
      var i := HeadIsEarliestLeast(BuyLe(locale), buys);
      assert buys[i] in buys;
    } else {
      assert StableSort(SellLe(locale), sells) == [] && StableSort(BuyLe(locale), buys) == [];
      NoMembers(candidates);
    }
  }

  lemma ComparatorsAreTotal(locale: (string, string) -> bool)
    requires TotalPreorder(locale)
    ensures TotalPreorder(SellLe(locale)) && TotalPreorder(BuyLe(locale))
  {
    forall a: Trade, b: Trade, c: Trade
      ensures SellLe(locale)(a, b) || SellLe(locale)(b, a)
      ensures SellLe(locale)(a, b) && SellLe(locale)(b, c) ==> SellLe(locale)(a, c)
      ensures BuyLe(locale)(a, b) || BuyLe(locale)(b, a)
      ensures BuyLe(locale)(a, b) && BuyLe(locale)(b, c) ==> BuyLe(locale)(a, c)
    {
      Compare(locale, a.symbol, b.symbol, c.symbol);
      BuyBeforeIsTransitive(locale, a, b, c);
    }
  }

  lemma BuyBeforeIsTransitive(locale: (string, string) -> bool, a: Trade, b: Trade, c: Trade)
    requires locale(a.symbol, b.symbol) && locale(b.symbol, c.symbol) ==> locale(a.symbol, c.symbol)
    ensures BuyBefore(locale, a, b) && BuyBefore(locale, b, c) ==> BuyBefore(locale, a, c)
  {
  }

  // ---- What is approved ----

  // The judge's approval of the k-th symbol, in the state the symbols before it left.
  function Approval<S>(judge: Judge<S>, start: S, ordered: seq<string>, k: nat): Option<Trade>
    requires k < |ordered|
  {
    var verdict := judge(JudgeAll(judge, start, ordered[..k]).state, ordered[k]).1;
    if verdict.Some? then Some(verdict.value.(symbol := ordered[k])) else None
  }

  // The candidates are exactly the approvals, each for its own symbol, in the order of the symbols.
  lemma {:induction false} CandidatesAreApproved<S>(judge: Judge<S>, start: S, ordered: seq<string>)
    requires StrictlySorted(ordered)
    ensures var cs := JudgeAll(judge, start, ordered).candidates;
            && (forall c ::
                  c in cs <==> exists k :: 0 <= k < |ordered| && Approval(judge, start, ordered, k) == Some(c))
            && (forall i :: 0 <= i < |cs| ==> cs[i].symbol in ordered)
            && (forall i, j :: 0 <= i < j < |cs| ==> Less(cs[i].symbol, cs[j].symbol))
    decreases |ordered|
  {
    if ordered != [] {
      var init, last := ordered[..|ordered| - 1], ordered[|ordered| - 1];
      CandidatesAreApproved(judge, start, init);
      assert ordered == init + [last];
      assert forall x :: x in init ==> Less(x, last);
      assert forall k :: 0 <= k < |init| ==> init[..k] == ordered[..k] && init[k] == ordered[k];
      LastApproval(judge, start, ordered);
      ApprovalsGrow(judge, start, ordered);
    }
  }

  lemma LastApproval<S>(judge: Judge<S>, start: S, ordered: seq<string>)
    requires ordered != []
    ensures var before := JudgeAll(judge, start, ordered[..|ordered| - 1]);
            var last := Approval(judge, start, ordered, |ordered| - 1);
            JudgeAll(judge, start, ordered).candidates == before.candidates + if last.Some? then [last.value] else []
  {
  }

  lemma ApprovalsGrow<S>(judge: Judge<S>, start: S, ordered: seq<string>)
    requires ordered != []
    ensures var init := ordered[..|ordered| - 1];
            forall c :: (exists k :: 0 <= k < |ordered| && Approval(judge, start, ordered, k) == Some(c))
                   <==> (exists k :: 0 <= k < |init| && Approval(judge, start, init, k) == Some(c))
                        || Approval(judge, start, ordered, |ordered| - 1) == Some(c)
  {
    var init := ordered[..|ordered| - 1];
    forall k | 0 <= k < |init| ensures Approval(judge, start, init, k) == Approval(judge, start, ordered, k) {
      assert init[..k] == ordered[..k] && init[k] == ordered[k];
    }
    hide Approval;
  }

  // ---- The whole evaluation ----

  // The decision is an approval, of an exit if any exit is approved, and least in its kind among
  // all approvals; there is none only when nothing is approved.
  ghost predicate BestApproval<S>(
      judge: Judge<S>, start: S, locale: (string, string) -> bool, ordered: seq<string>, selected: Option<Trade>)
  {
    match selected
    case None => forall k :: 0 <= k < |ordered| ==> Approval(judge, start, ordered, k).None?
    case Some(t) =>
      && (exists k :: 0 <= k < |ordered| && Approval(judge, start, ordered, k) == Some(t))
      && forall k :: 0 <= k < |ordered| && Approval(judge, start, ordered, k).Some? ==>
           NotBefore(locale, t, Approval(judge, start, ordered, k).value)
  }

  // The other trade does not come before the selected one.
  predicate NotBefore(locale: (string, string) -> bool, t: Trade, other: Trade) {
    if t.side == Sell then other.side == Sell ==> locale(t.symbol, other.symbol)
    else other.side == Buy && BuyBefore(locale, t, other)
  }

  lemma EvaluationIsRight<S>(judge: Judge<S>, start: S, locale: (string, string) -> bool, symbols: seq<string>)
    requires TotalPreorder(locale)
    ensures var ordered := Ordered(symbols);
            && (forall x :: x in ordered <==> x in symbols)
            && BestApproval(judge, start, locale, ordered,
                SelectOne(locale, JudgeAll(judge, start, ordered).candidates))
  {
    var ordered := Ordered(symbols);
    OrderedSorts(symbols);
    CandidatesAreApproved(judge, start, ordered);
    var cs := JudgeAll(judge, start, ordered).candidates;
    SelectionIsRight(locale, cs);
    hide SelectOne, JudgeAll, Ordered, TotalPreorder, Less, Approval;
    forall k | 0 <= k < |ordered| && Approval(judge, start, ordered, k).Some?
      ensures Approval(judge, start, ordered, k).value in cs
    {
      assert Approval(judge, start, ordered, k) == Some(Approval(judge, start, ordered, k).value);
    }
  }

  method Evaluate<S>(judge: Judge<S>, start: S, locale: (string, string) -> bool, symbols: seq<string>)
    returns (candidates: seq<Trade>, selected: Option<Trade>)
    ensures candidates == JudgeAll(judge, start, Ordered(symbols)).candidates
    ensures selected == SelectOne(locale, candidates)
    ensures TotalPreorder(locale) ==> BestApproval(judge, start, locale, Ordered(symbols), selected)
  {
    var ordered := Ordered(symbols);
    var state := start;
    candidates := [];
    hide BestApproval, SelectOne, TotalPreorder, Ordered;
    for i := 0 to |ordered|
      invariant Cycle(state, candidates) == JudgeAll(judge, start, ordered[..i])
    {
      assert ordered[..i + 1][..i] == ordered[..i];
      var (next, verdict) := judge(state, ordered[i]);
      state := next;
      if verdict.Some? { candidates := candidates + [verdict.value.(symbol := ordered[i])]; }
    }
    assert ordered[..|ordered|] == ordered;
    selected := SelectOne(locale, candidates);
    if TotalPreorder(locale) { EvaluationIsRight(judge, start, locale, symbols); }
  }

  // The evaluation depends on the set of symbols alone: not on their order, not on repetitions.
  lemma OrderDoesNotMatter<S>(judge: Judge<S>, start: S, a: seq<string>, b: seq<string>)
    requires forall x :: x in a <==> x in b
    ensures JudgeAll(judge, start, Ordered(a)) == JudgeAll(judge, start, Ordered(b))
  {
    OrderedSorts(a);
    OrderedSorts(b);
    SortedIsUnique(Ordered(a), Ordered(b));
  }

  // ---- Exposure ----

  datatype Quote = Quote(price: Option<Money>, current: bool)

  // The price of each position that is valued: the candidate's own ticker, and for every other
  // position a fresh quote; None as soon as one of those has no price or is stale.
  predicate Valued(quotes: map<string, Quote>, symbol: string) {
    symbol in quotes && quotes[symbol].price.Some? && quotes[symbol].current
  }

  method ValuePositions(
      candidate: string, own: Option<Money>, quotes: map<string, Quote>, positions: map<string, Money>)
    returns (prices: Option<map<string, Money>>)
    // Known exactly when every managed position other than the candidate's is priced by a fresh quote.
    ensures prices.Some? <==> forall s :: s in positions && s != candidate ==> Valued(quotes, s)
    ensures prices.Some? ==>
              && (forall s :: s in positions && s != candidate ==>
                  s in prices.value && prices.value[s] == quotes[s].price.value)
              && (candidate in prices.value <==> own.Some?) && (own.Some? ==> prices.value[candidate] == own.value)
              && prices.value.Keys <= positions.Keys + {candidate}
    // A known valuation still leaves out a managed position, counted as nothing, exactly when it
    // is the candidate's own and its ticker has no price.
    ensures prices.Some? ==>
        ((forall s :: s in positions ==> s in prices.value) <==> !(candidate in positions && own.None?))
  {
    var known := if own.Some? then map[candidate := own.value] else map[];
    var unknown := false;
    var left := positions.Keys;
    while left != {}
      invariant left <= positions.Keys
      invariant unknown <==> exists s :: s in positions && s !in left && s != candidate && !Valued(quotes, s)
      invariant candidate in known <==> own.Some?
      invariant own.Some? ==> known[candidate] == own.value
      invariant known.Keys <= positions.Keys + {candidate}
      invariant forall s :: s in positions && s !in left && s != candidate && Valued(quotes, s) ==> s in known
      invariant forall s :: s in known && s != candidate ==> Valued(quotes, s) && known[s] == quotes[s].price.value
      decreases |left|
    {
      var s :| s in left;
      left := left - {s};
      if s != candidate && s !in known {
        if Valued(quotes, s) { known := known[s := quotes[s].price.value]; } else { unknown := true; }
      }
    }
    prices := if unknown then None else Some(known);
  }
}
