/**
 Paged acquisition of historical candles from an unreliable source
 (src/backtest/candleAcquisition.ts). The source answers every request as it likes. Windows are
 adjacent at one millisecond, as in the code; its header speaks of one second. The header also
 asks for a non-empty page everywhere inside the series, while the code accepts a page that was
 empty on every attempt.
 */
module CandleAcquisition {
  import opened Wrappers
  import opened Money
  import opened Backtest

  datatype Row = Row(market: string, bar: Candle)

  function Ts(r: Row): int {
    r.bar.timestampMs
  }

  // The answer of the source to its n-th request, for a window.
  type Source = (nat, int, int) -> seq<Row>

  function Answer(source: Source, request: nat, lo: int, hi: int): seq<Row> {
    source(request, lo, hi)
  }

  datatype Failure = BadArguments | Truncated | Duplicate | OtherMarket | NoCandles | InvalidCandles

  // What happened to one window: its bounds, every answer in order, and the rows it contributed.
  datatype Page = Page(lo: int, hi: int, answers: seq<seq<Row>>, rows: seq<Row>)

  // ---- Pages ----

  ghost predicate CoversHead(page: seq<Row>, expectedHead: int) {
    exists r :: r in page && Ts(r) <= expectedHead
  }

  ghost predicate IsEarliest(page: seq<Row>, t: int) {
    (exists r :: r in page && Ts(r) == t) && forall r :: r in page ==> t <= Ts(r)
  }

  // A page starts at least as early as another and, when it starts with it, is at least as long.
  ghost predicate AtLeastAsGood(a: seq<Row>, b: seq<Row>) {
    b == [] || exists t, u :: IsEarliest(a, t) && IsEarliest(b, u) && (t < u || (t == u && |a| >= |b|))
  }

  method EarliestTimestamp(page: seq<Row>) returns (t: int)
    requires page != []
    ensures IsEarliest(page, t)
  {
    t := Ts(page[0]);
    for i := 0 to |page|
      invariant exists r :: r in page && Ts(r) == t
      invariant forall j :: 0 <= j < i ==> t <= Ts(page[j])
    {
      if Ts(page[i]) < t { t := Ts(page[i]); }
    }
  }

  method PageCoversHead(page: seq<Row>, expectedHead: int) returns (covers: bool)
    ensures covers <==> CoversHead(page, expectedHead)
  {
    if page == [] { return false; }
    var t := EarliestTimestamp(page);
    covers := t <= expectedHead;
  }

  method IsBetterPage(candidate: seq<Row>, current: seq<Row>) returns (better: bool)
    ensures better ==> candidate != [] && AtLeastAsGood(candidate, current)
    ensures !better ==> AtLeastAsGood(current, candidate)
    ensures !better && current == [] ==> candidate == []
  {
    if candidate == [] { return false; }
    if current == [] { return true; }
    var t := EarliestTimestamp(candidate);
    var u := EarliestTimestamp(current);
    better := if t != u then t < u else |candidate| > |current|;
  }

  // How a window is closed: with the first answer that covers its head; empty, when every attempt
  // was empty; or, while nothing was collected yet, with the best of all its answers.
  ghost predicate Closed(p: Page, collected: bool, barMs: int, attempts: nat) {
    && 0 < |p.answers| <= attempts
    && (forall i :: 0 <= i < |p.answers| - 1 ==> !CoversHead(p.answers[i], p.lo + barMs))
    && (Complete(p, barMs) || (|p.answers| == attempts && (AllEmpty(p) || (!collected && IsBest(p)))))
  }

  // The answers are the source's, from some request on, and the window was closed by the rules.
  ghost predicate GenuinePage(source: Source, p: Page, requests: nat, collected: bool, barMs: int, attempts: nat) {
    && Closed(p, collected, barMs, attempts)
    && forall i :: 0 <= i < |p.answers| ==> p.answers[i] == Answer(source, requests + i, p.lo, p.hi)
  }

  ghost predicate Complete(p: Page, barMs: int)
    requires 0 < |p.answers|
  {
    CoversHead(p.rows, p.lo + barMs) && p.rows == p.answers[|p.answers| - 1]
  }

  ghost predicate AllEmpty(p: Page) {
    p.rows == [] && forall a :: a in p.answers ==> a == []
  }

  ghost predicate IsBest(p: Page) {
    p.rows != [] && p.rows in p.answers && forall a :: a in p.answers ==> AtLeastAsGood(p.rows, a)
  }

  // No attempt covered the head of the window, and some attempt was not empty.
  ghost predicate Refused(source: Source, requests: nat, lo: int, hi: int, barMs: int, attempts: nat) {
    && (forall n: nat :: requests <= n < requests + attempts ==> !CoversHead(Answer(source, n, lo, hi), lo + barMs))
    && (exists n: nat :: requests <= n < requests + attempts && Answer(source, n, lo, hi) != [])
  }

  // The bounded retry loop of one window; None is the refusal of a truncated page.
  method FetchPage(source: Source, requests: nat, lo: int, hi: int, barMs: int, attempts: nat, collected: bool)
    returns (page: Option<Page>, used: nat)
    requires attempts > 0
    ensures 0 < used <= attempts
    ensures page.Some? ==>
              && page.value.lo == lo && page.value.hi == hi && |page.value.answers| == used
              && GenuinePage(source, page.value, requests, collected, barMs, attempts)
    // It refuses exactly when data is already collected and the window is truncated.
    ensures page.None? <==> collected && Refused(source, requests, lo, hi, barMs, attempts)
    ensures page.None? ==> used == attempts
  {
    hide CoversHead, AtLeastAsGood, Answer, Refused, GenuinePage;
    var best: seq<Row> := [];
    var answers: seq<seq<Row>> := [];
    used := 0;
    while used < attempts
      invariant 0 <= used <= attempts && |answers| == used
      invariant Asked(source, requests, lo, hi, answers) && NoneCovers(answers, lo + barMs)
      invariant BestOf(best, answers)
    {
      var answer := Answer(source, requests + used, lo, hi);
      used := used + 1;
      var covers := PageCoversHead(answer, lo + barMs);
      if covers {
        page := Some(Page(lo, hi, answers + [answer], answer));
        CoveredPage(source, page.value, requests, collected, barMs, attempts);
        return;
      }
      var better := IsBetterPage(answer, best);
      BestSoFar(answers, best, answer, better);
      answers := answers + [answer];
      if better { best := answer; }
    }
    UncoveredPage(source, Page(lo, hi, answers, best), requests, collected, barMs);
    page := if best != [] && collected then None else Some(Page(lo, hi, answers, best));
  }

  // The answers are those to consecutive requests.
  ghost predicate Asked(source: Source, requests: nat, lo: int, hi: int, answers: seq<seq<Row>>) {
    forall i :: 0 <= i < |answers| ==> answers[i] == Answer(source, requests + i, lo, hi)
  }

  ghost predicate NoneCovers(answers: seq<seq<Row>>, expectedHead: int) {
    forall i :: 0 <= i < |answers| ==> !CoversHead(answers[i], expectedHead)
  }

  // One of the answers, as good as any; nothing only if all of them are nothing.
  ghost predicate BestOf(best: seq<Row>, answers: seq<seq<Row>>) {
    && (best == [] ==> forall a :: a in answers ==> a == [])
    && (best != [] ==> best in answers)
    && (forall a :: a in answers ==> AtLeastAsGood(best, a))
  }

  lemma CoveredPage(source: Source, p: Page, requests: nat, collected: bool, barMs: int, attempts: nat)
    requires 0 < |p.answers| <= attempts && p.rows == p.answers[|p.answers| - 1] && CoversHead(p.rows, p.lo + barMs)
    requires Asked(source, requests, p.lo, p.hi, p.answers[..|p.answers| - 1])
    requires p.rows == Answer(source, requests + |p.answers| - 1, p.lo, p.hi)
    requires NoneCovers(p.answers[..|p.answers| - 1], p.lo + barMs)
    ensures GenuinePage(source, p, requests, collected, barMs, attempts)
    ensures !Refused(source, requests, p.lo, p.hi, barMs, attempts)
  {
    var init := p.answers[..|p.answers| - 1];
    hide CoversHead, Answer;
    assert forall i :: 0 <= i < |init| ==> p.answers[i] == init[i];
    var last: nat := requests + |init|;
    assert CoversHead(Answer(source, last, p.lo, p.hi), p.lo + barMs);
  }

  lemma UncoveredPage(source: Source, p: Page, requests: nat, collected: bool, barMs: int)
    requires 0 < |p.answers| && Asked(source, requests, p.lo, p.hi, p.answers) && NoneCovers(p.answers, p.lo + barMs)
    requires BestOf(p.rows, p.answers)
    ensures !(p.rows != [] && collected) ==> GenuinePage(source, p, requests, collected, barMs, |p.answers|)
    ensures Refused(source, requests, p.lo, p.hi, barMs, |p.answers|) <==> p.rows != []
  {
    hide CoversHead, AtLeastAsGood, Answer;
    forall n: nat | requests <= n < requests + |p.answers|
      ensures !CoversHead(Answer(source, n, p.lo, p.hi), p.lo + barMs)
      ensures p.rows == [] ==> Answer(source, n, p.lo, p.hi) == []
    {
      assert p.answers[n - requests] in p.answers;
    }
    if p.rows != [] {
      var k :| 0 <= k < |p.answers| && p.answers[k] == p.rows;
      assert Answer(source, requests + k, p.lo, p.hi) != [];
    }
  }

  lemma Transitive(a: seq<Row>, b: seq<Row>, c: seq<Row>)
    requires AtLeastAsGood(a, b) && AtLeastAsGood(b, c)
    ensures AtLeastAsGood(a, c)
  {
  }

  lemma BestSoFar(answers: seq<seq<Row>>, best: seq<Row>, answer: seq<Row>, better: bool)
    requires BestOf(best, answers)
    requires better ==> answer != [] && AtLeastAsGood(answer, best)
    requires !better ==> AtLeastAsGood(best, answer) && (best == [] ==> answer == [])
    ensures BestOf(if better then answer else best, answers + [answer])
  {
    hide AtLeastAsGood;
    if better {
      forall a | a in answers + [answer] ensures AtLeastAsGood(answer, a) {
        if a in answers { Transitive(answer, best, a); } else { Reflexive(answer); }
      }
    }
  }

  lemma Reflexive(a: seq<Row>)
    ensures AtLeastAsGood(a, a)
  {
    if a != [] { var t := EarliestOf(a); }
  }

  lemma {:induction false} EarliestOf(page: seq<Row>) returns (t: int)
    requires page != []
    ensures IsEarliest(page, t)
    decreases |page|
  {
    t := Ts(page[0]);
    if |page| > 1 {
      var rest := EarliestOf(page[1..]);
      if rest < t { t := rest; }
    }
    assert forall r :: r in page ==> r == page[0] || r in page[1..];
  }

  // ---- The windows ----

  // Windows of one page each, the last one cut at the end, adjacent at one millisecond.
  ghost predicate Windows(pages: seq<Page>, fromMs: int, toMs: int, pageMs: int) {
    forall k :: 0 <= k < |pages| ==> WindowAt(pages, k, fromMs, toMs, pageMs)
  }

  ghost predicate WindowAt(pages: seq<Page>, k: nat, fromMs: int, toMs: int, pageMs: int)
    requires k < |pages|
  {
    && pages[k].lo == (if k == 0 then fromMs else pages[k - 1].hi + 1) && pages[k].lo <= toMs
    && pages[k].hi == (if pages[k].lo + pageMs - 1 <= toMs then pages[k].lo + pageMs - 1 else toMs)
  }

  lemma WindowsGrow(pages: seq<Page>, page: Page, fromMs: int, toMs: int, pageMs: int)
    requires Windows(pages, fromMs, toMs, pageMs)
    requires WindowAt(pages + [page], |pages|, fromMs, toMs, pageMs)
    ensures Windows(pages + [page], fromMs, toMs, pageMs)
  {
    var more := pages + [page];
    forall k | 0 <= k < |more| ensures WindowAt(more, k, fromMs, toMs, pageMs) {
      if k < |pages| { assert WindowAt(pages, k, fromMs, toMs, pageMs); }
    }
  }

  // Every instant of the requested range lies in exactly one window.
  lemma WindowsPartition(pages: seq<Page>, fromMs: int, toMs: int, pageMs: int, t: int) returns (k: nat)
    requires Windows(pages, fromMs, toMs, pageMs) && pageMs > 0 && pages != [] && pages[|pages| - 1].hi == toMs
    requires fromMs <= t <= toMs
    ensures k < |pages| && pages[k].lo <= t <= pages[k].hi
    ensures forall j :: 0 <= j < |pages| && pages[j].lo <= t <= pages[j].hi ==> j == k
  {
    k := 0;
    assert WindowAt(pages, 0, fromMs, toMs, pageMs);
    while pages[k].hi < t
      invariant k < |pages| && pages[k].lo <= t
      decreases |pages| - k
    {
      k := k + 1;
      assert WindowAt(pages, k, fromMs, toMs, pageMs);
    }
    forall j | 0 <= j < |pages| && pages[j].lo <= t <= pages[j].hi ensures j == k {
      if j < k { WindowsAscend(pages, fromMs, toMs, pageMs, j, k); }
      if k < j { WindowsAscend(pages, fromMs, toMs, pageMs, k, j); }
    }
  }

  lemma {:induction false} WindowsAscend(pages: seq<Page>, fromMs: int, toMs: int, pageMs: int, j: nat, k: nat)
    requires Windows(pages, fromMs, toMs, pageMs) && pageMs > 0 && j < k < |pages|
    ensures pages[j].hi < pages[k].lo
    decreases k
  {
    assert WindowAt(pages, k, fromMs, toMs, pageMs) && WindowAt(pages, k - 1, fromMs, toMs, pageMs);
    if j + 1 < k {
      WindowsAscend(pages, fromMs, toMs, pageMs, j, k - 1);
    }
  }

  lemma {:induction false} WindowsReach(pages: seq<Page>, fromMs: int, toMs: int, pageMs: int, k: nat)
    requires Windows(pages, fromMs, toMs, pageMs) && pageMs > 0 && k < |pages|
    ensures pages[k].lo == fromMs + k * pageMs
    decreases k
  {
    assert WindowAt(pages, k, fromMs, toMs, pageMs);
    if k > 0 {
      WindowsReach(pages, fromMs, toMs, pageMs, k - 1);
      MulStep(k - 1, pageMs);
      assert WindowAt(pages, k - 1, fromMs, toMs, pageMs);
    }
  }

  lemma GenuineFrom(source: Source, pages: seq<Page>, barMs: int, attempts: nat)
    requires forall k :: 0 <= k < |pages| ==>
               GenuinePage(source, pages[k], Requests(pages[..k]), Rows(pages[..k]) != [], barMs, attempts)
    ensures Genuine(source, pages, barMs, attempts)
  {
    hide GenuinePage, Rows, Requests;
  }

  lemma {:induction false} RequestsBound(source: Source, pages: seq<Page>, barMs: int, attempts: nat)
    requires Genuine(source, pages, barMs, attempts)
    ensures Requests(pages) <= |pages| * attempts
    decreases |pages|
  {
    if pages != [] {
      var init, last := pages[..|pages| - 1], pages[|pages| - 1];
      assert GenuinePage(source, last, Requests(init), Rows(init) != [], barMs, attempts);
      assert |last.answers| <= attempts;
      hide GenuinePage, Rows;
      forall k | 0 <= k < |init|
        ensures GenuinePage(source, init[k], Requests(init[..k]), Rows(init[..k]) != [], barMs, attempts)
      {
        assert init[..k] == pages[..k] && init[k] == pages[k];
      }
      hide Genuine;
      assert Genuine(source, init, barMs, attempts) by { GenuineFrom(source, init, barMs, attempts); }
      RequestsBound(source, init, barMs, attempts);
      MulStep(|init|, attempts);
    }
  }

  // At most `attempts` requests for each of the windows that fit the range.
  function RequestLimit(fromMs: int, toMs: int, pageMs: int, attempts: nat): int
    requires pageMs > 0
  {
    attempts * ((toMs - fromMs) / pageMs + 1)
  }

  lemma PagingBound(
      source: Source, pages: seq<Page>, fromMs: int, toMs: int, barMs: int, pageMs: int, attempts: nat, more: bool,
      used: nat)
    requires Windows(pages, fromMs, toMs, pageMs) && Genuine(source, pages, barMs, attempts) && pageMs > 0
        && fromMs <= toMs
    requires used <= if more then attempts else 0
    requires more && pages != [] ==> pages[|pages| - 1].hi < toMs
    ensures Requests(pages) + used <= RequestLimit(fromMs, toMs, pageMs, attempts)
  {
    hide Genuine, Windows, Requests;
    RequestsBound(source, pages, barMs, attempts);
    if pages != [] {
      WindowsReach(pages, fromMs, toMs, pageMs, |pages| - 1);
      LastWindow(pages, fromMs, toMs, pageMs);
    }
    LimitHolds(|pages|, Requests(pages), used, attempts, toMs - fromMs, pageMs, more);
  }

  lemma LastWindow(pages: seq<Page>, fromMs: int, toMs: int, pageMs: int)
    requires Windows(pages, fromMs, toMs, pageMs) && pages != []
    ensures WindowAt(pages, |pages| - 1, fromMs, toMs, pageMs)
  {
  }

  lemma LimitHolds(n: nat, made: nat, used: nat, attempts: nat, span: nat, pageMs: int, more: bool)
    requires pageMs > 0 && made <= n * attempts && used <= if more then attempts else 0
    requires n > 0 ==> (n - 1) * pageMs + (if more then pageMs else 0) <= span
    ensures made + used <= attempts * (span / pageMs + 1)
  {
    MulStep(n, attempts);
    if more {
      if n > 0 { MulStep(n - 1, pageMs); }
      BoundPages(attempts, n + 1, span, pageMs);
    } else {
      BoundPages(attempts, n, span, pageMs);
    }
  }

  function Rows(pages: seq<Page>): seq<Row>
    decreases |pages|
  {
    if pages == [] then [] else Rows(pages[..|pages| - 1]) + pages[|pages| - 1].rows
  }

  function Requests(pages: seq<Page>): nat
    decreases |pages|
  {
    if pages == [] then 0 else Requests(pages[..|pages| - 1]) + |pages[|pages| - 1].answers|
  }

  // Every page holds what the source answered to its requests, and was closed by the rules.
  ghost predicate Genuine(source: Source, pages: seq<Page>, barMs: int, attempts: nat) {
    forall k :: 0 <= k < |pages| ==>
      GenuinePage(source, pages[k], Requests(pages[..k]), Rows(pages[..k]) != [], barMs, attempts)
  }

  function Cursor(pages: seq<Page>, fromMs: int): int {
    if pages == [] then fromMs else pages[|pages| - 1].hi + 1
  }

  function PageEnd(cursor: int, toMs: int, pageMs: int): int {
    if cursor + pageMs - 1 <= toMs then cursor + pageMs - 1 else toMs
  }

  // Data is collected, and the next window is truncated on every attempt.
  ghost predicate Stuck(
      source: Source, pages: seq<Page>, fromMs: int, toMs: int, barMs: int, pageMs: int, attempts: nat) {
    var cursor := Cursor(pages, fromMs);
    cursor <= toMs && Rows(pages) != []
        && Refused(source, Requests(pages), cursor, PageEnd(cursor, toMs, pageMs), barMs, attempts)
  }

  predicate Reached(pages: seq<Page>, toMs: int) {
    pages != [] && pages[|pages| - 1].hi == toMs
  }

  // The paging loop. It stops at the first truncated page inside the series.
  method FetchPages(source: Source, fromMs: int, toMs: int, barMs: int, pageMs: int, attempts: nat)
    returns (raw: seq<Row>, requests: nat, truncated: bool, ghost pages: seq<Page>)
    requires fromMs <= toMs && barMs > 0 && pageMs > 0 && attempts > 0
    ensures Windows(pages, fromMs, toMs, pageMs) && Genuine(source, pages, barMs, attempts)
    ensures raw == Rows(pages)
    // Every window was closed, or the loop stopped at the first truncated one and no more requests
    // followed.
    ensures truncated <==> Stuck(source, pages, fromMs, toMs, barMs, pageMs, attempts)
    ensures !truncated <==> Reached(pages, toMs)
    ensures requests == Requests(pages) + if truncated then attempts else 0
    ensures requests <= RequestLimit(fromMs, toMs, pageMs, attempts)
  {
    raw, requests, truncated, pages := [], 0, false, [];
    var cursor := fromMs;
    assert cursor == Cursor(pages, fromMs);
    assert Genuine(source, pages, barMs, attempts) && Rows(pages) == [] && Requests(pages) == 0;
    hide GenuinePage, Genuine, Rows, Requests, CoversHead, Answer, RequestLimit, Windows, Refused, Stuck, Reached,
        Cursor, PageEnd;
    while cursor <= toMs
      invariant Windows(pages, fromMs, toMs, pageMs) && Genuine(source, pages, barMs, attempts)
      invariant raw == Rows(pages) && requests == Requests(pages)
      invariant cursor == Cursor(pages, fromMs)
      invariant cursor > toMs ==> pages != []
      invariant pages != [] ==> pages[|pages| - 1].hi == cursor - 1 <= toMs
      decreases toMs - cursor
    {
      var pageTo := PageEnd(cursor, toMs, pageMs);
      var page, used := FetchPage(source, requests, cursor, pageTo, barMs, attempts, raw != []);
      if page.None? {
        StuckHere(source, pages, fromMs, toMs, barMs, pageMs, attempts);
        PagingBound(source, pages, fromMs, toMs, barMs, pageMs, attempts, true, used);
        return raw, requests + used, true, pages;
      }
      Extend(source, pages, page.value, barMs, attempts);
      NextWindow(pages, page.value, fromMs, toMs, pageMs);
      requests := requests + used;
      pages := pages + [page.value];
      raw := raw + page.value.rows;
      cursor := pageTo + 1;
    }
    EndReached(source, pages, fromMs, toMs, barMs, pageMs, attempts);
    PagingBound(source, pages, fromMs, toMs, barMs, pageMs, attempts, false, 0);
  }

  lemma NextWindow(pages: seq<Page>, page: Page, fromMs: int, toMs: int, pageMs: int)
    requires Windows(pages, fromMs, toMs, pageMs) && pageMs > 0
    requires page.lo == Cursor(pages, fromMs) <= toMs && page.hi == PageEnd(page.lo, toMs, pageMs)
    ensures Windows(pages + [page], fromMs, toMs, pageMs)
    ensures Cursor(pages + [page], fromMs) == page.hi + 1 && page.lo <= page.hi <= toMs
  {
    hide Windows;
    WindowsGrow(pages, page, fromMs, toMs, pageMs);
  }

  lemma StuckHere(source: Source, pages: seq<Page>, fromMs: int, toMs: int, barMs: int, pageMs: int, attempts: nat)
    requires var cursor := Cursor(pages, fromMs);
             && cursor <= toMs && Rows(pages) != []
             && Refused(source, Requests(pages), cursor, PageEnd(cursor, toMs, pageMs), barMs, attempts)
    ensures Stuck(source, pages, fromMs, toMs, barMs, pageMs, attempts) && !Reached(pages, toMs)
  {
    hide Refused, Rows, Requests;
  }

  lemma EndReached(source: Source, pages: seq<Page>, fromMs: int, toMs: int, barMs: int, pageMs: int, attempts: nat)
    requires fromMs <= toMs < Cursor(pages, fromMs) && (pages == [] || pages[|pages| - 1].hi <= toMs)
    ensures Reached(pages, toMs) && !Stuck(source, pages, fromMs, toMs, barMs, pageMs, attempts)
  {
    hide Refused, Rows, Requests;
  }

  lemma Extend(source: Source, pages: seq<Page>, page: Page, barMs: int, attempts: nat)
    requires Genuine(source, pages, barMs, attempts)
    requires GenuinePage(source, page, Requests(pages), Rows(pages) != [], barMs, attempts)
    ensures Genuine(source, pages + [page], barMs, attempts)
    ensures Rows(pages + [page]) == Rows(pages) + page.rows
    ensures Requests(pages + [page]) == Requests(pages) + |page.answers|
  {
    hide GenuinePage;
    var more := pages + [page];
    assert more[..|pages|] == pages;
    forall k | 0 <= k < |pages|
      ensures GenuinePage(source, more[k], Requests(more[..k]), Rows(more[..k]) != [], barMs, attempts)
    {
      assert more[..k] == pages[..k] && more[k] == pages[k];
    }
  }

  lemma BoundPages(attempts: nat, pages: nat, span: nat, pageMs: int)
    requires pageMs > 0 && (pages == 0 || (pages - 1) * pageMs <= span)
    ensures attempts * pages <= attempts * (span / pageMs + 1)
  {
    var q := span / pageMs;
    Split(span, pageMs);
    MulStep(q, pageMs);
    MulLe(q + 1, pages - 1, pageMs);
    MulLe(pages, q + 1, attempts);
    assert attempts * pages == pages * attempts && attempts * (q + 1) == (q + 1) * attempts;
  }

  // ---- The series ----

  ghost predicate Ascending(rows: seq<Row>) {
    forall i, j :: 0 <= i < j < |rows| ==> Ts(rows[i]) < Ts(rows[j])
  }

  function Insert(r: Row, rows: seq<Row>): seq<Row> {
    if rows == [] || Ts(r) < Ts(rows[0]) then [r] + rows else [rows[0]] + Insert(r, rows[1..])
  }

  // The stable sort by timestamp.
  function SortByTime(rows: seq<Row>): seq<Row>
    decreases |rows|
  {
    if rows == [] then [] else Insert(rows[|rows| - 1], SortByTime(rows[..|rows| - 1]))
  }

  ghost predicate Ordered(rows: seq<Row>) {
    forall i, j :: 0 <= i < j < |rows| ==> Ts(rows[i]) <= Ts(rows[j])
  }

  lemma InFront(first: Row, rest: seq<Row>)
    requires Ordered(rest) && forall x :: x in rest ==> Ts(first) <= Ts(x)
    ensures Ordered([first] + rest)
  {
  }

  lemma {:induction false} InsertOrders(r: Row, rows: seq<Row>)
    requires Ordered(rows)
    ensures Ordered(Insert(r, rows))
    ensures multiset(Insert(r, rows)) == multiset(rows) + multiset{r}
    decreases |rows|
  {
    if rows != [] && Ts(r) >= Ts(rows[0]) {
      InsertOrders(r, rows[1..]);
      InsertedBehind(rows[0], r, rows[1..], Insert(r, rows[1..]));
      assert rows == [rows[0]] + rows[1..];
      hide Ordered;
    } else {
      InsertedFirst(r, rows);
    }
  }

  lemma InsertedFirst(r: Row, rows: seq<Row>)
    requires Ordered(rows) && (rows == [] || Ts(r) < Ts(rows[0]))
    ensures Ordered([r] + rows) && multiset([r] + rows) == multiset(rows) + multiset{r}
  {
  }

  // A first row in front of the rest with one more row.
  lemma InsertedBehind(first: Row, r: Row, before: seq<Row>, rest: seq<Row>)
    requires Ordered([first] + before) && Ordered(rest) && multiset(rest) == multiset(before) + multiset{r}
    requires Ts(first) <= Ts(r)
    ensures Ordered([first] + rest)
    ensures multiset([first] + rest) == multiset([first] + before) + multiset{r}
  {
    forall x | x in rest ensures Ts(first) <= Ts(x) {
      assert x in multiset(rest);
      if x != r {
        var k :| 0 <= k < |before| && before[k] == x;
        assert ([first] + before)[k + 1] == x && ([first] + before)[0] == first;
      }
    }
    InFront(first, rest);
  }

  lemma {:induction false} SortSorts(rows: seq<Row>)
    ensures Ordered(SortByTime(rows)) && multiset(SortByTime(rows)) == multiset(rows)
    decreases |rows|
  {
    if rows != [] {
      hide Insert, Ordered;
      SortSorts(rows[..|rows| - 1]);
      InsertOrders(rows[|rows| - 1], SortByTime(rows[..|rows| - 1]));
      assert rows == rows[..|rows| - 1] + [rows[|rows| - 1]];
    }
  }

  function Within(rows: seq<Row>, fromMs: int, toMs: int): seq<Row>
    decreases |rows|
  {
    if rows == [] then []
    else Within(rows[..|rows| - 1], fromMs, toMs)
         + if fromMs <= Ts(rows[|rows| - 1]) <= toMs then [rows[|rows| - 1]] else []
  }

  lemma AtTheEnd(rows: seq<Row>, last: Row)
    requires Ascending(rows) && forall x :: x in rows ==> Ts(x) < Ts(last)
    ensures Ascending(rows + [last])
  {
  }

  lemma {:induction false} WithinKeeps(rows: seq<Row>, fromMs: int, toMs: int)
    ensures forall r :: r in Within(rows, fromMs, toMs) <==> r in rows && fromMs <= Ts(r) <= toMs
    ensures Ascending(rows) ==> Ascending(Within(rows, fromMs, toMs))
    decreases |rows|
  {
    if rows != [] {
      var init, last := rows[..|rows| - 1], rows[|rows| - 1];
      WithinKeeps(init, fromMs, toMs);
      assert rows == init + [last];
      if Ascending(rows) {
        assert forall x :: x in init ==> Ts(x) < Ts(last);
        AtTheEnd(Within(init, fromMs, toMs), last);
      }
    }
  }

  ghost predicate NoDuplicates(rows: seq<Row>) {
    forall i, j :: 0 <= i < j < |rows| ==> Ts(rows[i]) != Ts(rows[j])
  }

  method HasDuplicate(sorted: seq<Row>) returns (found: bool)
    requires Ordered(sorted)
    ensures found <==> !Ascending(sorted)
  {
    for i := 0 to |sorted|
      invariant forall j, k :: 0 <= j < k < i ==> Ts(sorted[j]) < Ts(sorted[k])
    {
      if i > 0 && Ts(sorted[i]) == Ts(sorted[i - 1]) { return true; }
    }
    found := false;
  }

  function BarsOf(rows: seq<Row>): seq<Candle> {
    seq(|rows|, i requires 0 <= i < |rows| => rows[i].bar)
  }

  datatype Acquired = Acquired(candles: seq<Row>, requests: nat, rawCount: nat)

  // The aligned start: whole seconds.
  function AlignedFrom(fromMs: int): int {
    fromMs / 1000 * 1000
  }

  // The time a full page spans.
  function PageSpan(barMs: int, barsPerPage: int): (span: int)
    ensures barMs > 0 && barsPerPage > 0 ==> span > 0
  {
    barMs * barsPerPage
  }

  method AcquireCandles(
      source: Source, market: string, fromMs: int, toMs: int, barMs: int, barsPerPage: int, pageAttempts: int)
    returns (r: Result<Acquired, Failure>, ghost pages: seq<Page>)
    requires barMs > 0
    ensures r.Failure? && r.error == BadArguments <==> barsPerPage <= 0 || pageAttempts <= 0 || fromMs >= toMs
    // Otherwise windows are closed one after the other until one is truncated or the end is
    // reached, and then the first defect of what they held decides.
    ensures barsPerPage > 0 && pageAttempts > 0 && fromMs < toMs ==>
              && Windows(pages, AlignedFrom(fromMs), toMs, PageSpan(barMs, barsPerPage))
              && Genuine(source, pages, barMs, pageAttempts)
              && if Stuck(source, pages, AlignedFrom(fromMs), toMs, barMs, PageSpan(barMs, barsPerPage), pageAttempts)
                 then r == Failure(Truncated)
                 else Reached(pages, toMs) && var defect := Defect(Rows(pages), AlignedFrom(fromMs), toMs, market);
                      if defect.Some? then r == Failure(defect.value) else r.Success?
    // On success every window of [aligned from, to] was requested and closed, and the series is
    // exactly what the pages held within the range, strictly ascending, of one market, and valid.
    ensures r.Success? ==>
              && Windows(pages, AlignedFrom(fromMs), toMs, PageSpan(barMs, barsPerPage)) && Reached(pages, toMs)
              && Genuine(source, pages, barMs, pageAttempts)
              && r.value.requests == Requests(pages)
              && Requests(pages) <= RequestLimit(AlignedFrom(fromMs), toMs, PageSpan(barMs, barsPerPage), pageAttempts)
              && IsSeries(r.value.candles, Rows(pages), AlignedFrom(fromMs), toMs, market)
              && NoDuplicates(Rows(pages))
  {
    pages := [];
    if barsPerPage <= 0 || pageAttempts <= 0 || fromMs >= toMs { return Failure(BadArguments), pages; }
    var aligned := AlignedFrom(fromMs);
    assert aligned <= toMs;
    hide Windows, Genuine, Requests, Rows, Stuck, Defect, IsSeries, NoDuplicates, RequestLimit, Reached, AlignedFrom,
        PageSpan;
    var pageMs := PageSpan(barMs, barsPerPage);
    var raw, requests, truncated;
    raw, requests, truncated, pages := FetchPages(source, aligned, toMs, barMs, pageMs, pageAttempts);
    if truncated { return Failure(Truncated), pages; }
    var series := MakeSeries(raw, aligned, toMs, market);
    if series.Failure? { return Failure(series.error), pages; }
    r := Success(Acquired(series.value, requests, |raw|));
  }

  // Exactly the rows within the range, strictly ascending, of one market, and a valid series.
  ghost predicate IsSeries(candles: seq<Row>, raw: seq<Row>, fromMs: int, toMs: int, market: string) {
    && Ascending(candles) && ValidCandles(BarsOf(candles))
    && (forall c :: c in candles <==> c in raw && fromMs <= Ts(c) <= toMs)
    && (forall c :: c in candles ==> c.market == market)
  }

  predicate InRange(r: Row, fromMs: int, toMs: int) {
    fromMs <= Ts(r) <= toMs
  }

  // What is wrong with the collected rows, the first thing first.
  ghost function Defect(raw: seq<Row>, fromMs: int, toMs: int, market: string): Option<Failure> {
    if !NoDuplicates(raw) then Some(Duplicate)
    else if exists r :: r in raw && InRange(r, fromMs, toMs) && r.market != market then Some(OtherMarket)
    else if forall r :: r in raw ==> !InRange(r, fromMs, toMs) then Some(NoCandles)
    else if exists r :: r in raw && InRange(r, fromMs, toMs) && !ValidCandle(r.bar) then Some(InvalidCandles)
    else None
  }

  lemma ValidSeries(candles: seq<Row>)
    requires Ascending(candles) && candles != []
    ensures ValidCandles(BarsOf(candles)) <==> forall c :: c in candles ==> ValidCandle(c.bar)
  {
    var bars := BarsOf(candles);
    hide ValidCandle;
    assert forall i :: 0 <= i < |bars| ==> bars[i] == candles[i].bar;
  }

  method MakeSeries(raw: seq<Row>, fromMs: int, toMs: int, market: string) returns (r: Result<seq<Row>, Failure>)
    ensures r.Success? ==> IsSeries(r.value, raw, fromMs, toMs, market) && NoDuplicates(raw)
    ensures var defect := Defect(raw, fromMs, toMs, market);
            if defect.Some? then r == Failure(defect.value) else r.Success?
  {
    var sorted := SortByTime(raw);
    SortSorts(raw);
    hide SortByTime, Within, ValidCandles, ValidCandle;
    var duplicate := HasDuplicate(sorted);
    AscendingIffNoDuplicates(raw, sorted);
    if duplicate { return Failure(Duplicate); }
    var candles := Within(sorted, fromMs, toMs);
    WithinKeeps(sorted, fromMs, toMs);
    forall c ensures c in sorted <==> c in raw {
      assert c in multiset(sorted) <==> c in multiset(raw);
    }
    hide Ascending, Ordered, NoDuplicates;
    var one := OneMarket(candles, market);
    if !one { return Failure(OtherMarket); }
    if candles == [] { return Failure(NoCandles); }
    assert candles[0] in candles;
    ValidSeries(candles);
    var valid := ValidateCandles(BarsOf(candles));
    if !valid { return Failure(InvalidCandles); }
    r := Success(candles);
  }

  method OneMarket(rows: seq<Row>, market: string) returns (one: bool)
    ensures one <==> forall r :: r in rows ==> r.market == market
  {
    for i := 0 to |rows|
      invariant forall j :: 0 <= j < i ==> rows[j].market == market
    {
      if rows[i].market != market { return false; }
    }
    one := true;
  }

  lemma TwoOccurrences(rows: seq<Row>, i: nat, j: nat)
    requires i < j < |rows|
    ensures rows[i] == rows[j] ==> multiset(rows)[rows[i]] >= 2
  {
    assert rows == rows[..j] + rows[j..];
    assert rows[i] in rows[..j] && rows[j] in rows[j..];
  }

  lemma OneOccurrence(rows: seq<Row>, k: nat)
    requires (Ascending(rows) || NoDuplicates(rows)) && k < |rows|
    ensures multiset(rows)[rows[k]] == 1
  {
    assert rows == rows[..k] + ([rows[k]] + rows[k + 1..]);
    assert rows[k] !in rows[..k] && rows[k] !in rows[k + 1..];
  }

  // The sorted rows are strictly ascending exactly when no timestamp occurs twice.
  lemma AscendingIffNoDuplicates(rows: seq<Row>, sorted: seq<Row>)
    requires Ordered(sorted) && multiset(sorted) == multiset(rows)
    ensures Ascending(sorted) <==> NoDuplicates(rows)
  {
    if Ascending(sorted) { AscendingHasNoDuplicates(rows, sorted); }
    if NoDuplicates(rows) { NoDuplicatesAscend(rows, sorted); }
  }

  lemma NoDuplicatesAscend(rows: seq<Row>, sorted: seq<Row>)
    requires Ordered(sorted) && NoDuplicates(rows) && multiset(sorted) == multiset(rows)
    ensures Ascending(sorted)
  {
    forall k, l | 0 <= k < l < |sorted| ensures Ts(sorted[k]) < Ts(sorted[l]) {
      assert sorted[k] in multiset(rows) && sorted[l] in multiset(rows);
      var i :| 0 <= i < |rows| && rows[i] == sorted[k];
      var j :| 0 <= j < |rows| && rows[j] == sorted[l];
      TwoOccurrences(sorted, k, l);
      OneOccurrence(rows, i);
    }
  }

  lemma AscendingHasNoDuplicates(rows: seq<Row>, sorted: seq<Row>)
    requires Ascending(sorted) && multiset(sorted) == multiset(rows)
    ensures NoDuplicates(rows)
  {
    forall i, j | 0 <= i < j < |rows| ensures Ts(rows[i]) != Ts(rows[j]) {
      assert rows[i] in multiset(sorted) && rows[j] in multiset(sorted);
      var k :| 0 <= k < |sorted| && sorted[k] == rows[i];
      var l :| 0 <= l < |sorted| && sorted[l] == rows[j];
      TwoOccurrences(rows, i, j);
      OneOccurrence(sorted, k);
    }
  }

  // ---- Nothing of the source's store is lost ----

  // The source answers a window with nothing, or with everything it stores there from some point on.
  ghost predicate AnswersBySuffix(source: Source, stored: set<Row>) {
    forall n: nat, lo, hi :: Answer(source, n, lo, hi) == [] || IsSuffix(Answer(source, n, lo, hi), stored, lo, hi)
  }

  ghost predicate IsSuffix(answer: seq<Row>, stored: set<Row>, lo: int, hi: int) {
    exists cut :: IsSuffixFrom(answer, stored, lo, hi, cut)
  }

  ghost predicate IsSuffixFrom(answer: seq<Row>, stored: set<Row>, lo: int, hi: int, cut: int) {
    forall r :: r in answer <==> r in stored && lo <= Ts(r) <= hi && cut <= Ts(r)
  }

  // A page that covers its head holds every stored row of its window from one bar after its start.
  lemma CoveringPageIsWhole(
      source: Source, stored: set<Row>, p: Page, requests: nat, collected: bool, barMs: int, attempts: nat)
    requires AnswersBySuffix(source, stored) && GenuinePage(source, p, requests, collected, barMs, attempts)
    requires Complete(p, barMs)
    ensures forall r :: r in stored && p.lo + barMs <= Ts(r) <= p.hi ==> r in p.rows
  {
    var n := |p.answers| - 1;
    assert p.answers[n] == Answer(source, requests + n, p.lo, p.hi);
    var head :| head in p.rows && Ts(head) <= p.lo + barMs;
    assert p.rows != [];
    var cut :| IsSuffixFrom(p.rows, stored, p.lo, p.hi, cut);
    assert cut <= Ts(head);
  }

  // After the first window that contributed data, a stored row from one bar after its window's
  // start is collected exactly when the source was not empty for that window on every attempt.
  lemma StoredRowIsCollectedIff(
      source: Source, stored: set<Row>, pages: seq<Page>, fromMs: int, toMs: int, barMs: int, pageMs: int,
      attempts: nat, k: nat, r: Row)
    requires AnswersBySuffix(source, stored) && Genuine(source, pages, barMs, attempts)
    requires Windows(pages, fromMs, toMs, pageMs) && pageMs > 0
    requires k < |pages| && Rows(pages[..k]) != []
    requires r in stored && pages[k].lo + barMs <= Ts(r) <= pages[k].hi && barMs > 0
    ensures r in Rows(pages) <==> !AllEmpty(pages[k])
  {
    var p := pages[k];
    assert GenuinePage(source, p, Requests(pages[..k]), Rows(pages[..k]) != [], barMs, attempts);
    if !AllEmpty(p) {
      CoveringPageIsWhole(source, stored, p, Requests(pages[..k]), true, barMs, attempts);
      RowsOfPages(pages, k);
    } else if r in Rows(pages) {
      var j := PageOfRow(pages, r);
      assert GenuinePage(source, pages[j], Requests(pages[..j]), Rows(pages[..j]) != [], barMs, attempts);
      RowsStayInWindow(source, stored, pages[j], Requests(pages[..j]), Rows(pages[..j]) != [], barMs, attempts, r);
      hide Genuine, GenuinePage, Windows, Rows, AnswersBySuffix;
      if j < k { WindowsAscend(pages, fromMs, toMs, pageMs, j, k); }
      if k < j { WindowsAscend(pages, fromMs, toMs, pageMs, k, j); }
    }
  }

  // A page contributes rows of its own window only.
  lemma RowsStayInWindow(
      source: Source, stored: set<Row>, p: Page, requests: nat, collected: bool, barMs: int, attempts: nat, r: Row)
    requires AnswersBySuffix(source, stored) && GenuinePage(source, p, requests, collected, barMs, attempts)
        && r in p.rows
    ensures p.lo <= Ts(r) <= p.hi
  {
    var i :| 0 <= i < |p.answers| && p.answers[i] == p.rows;
    assert p.answers[i] == Answer(source, requests + i, p.lo, p.hi);
    var cut :| IsSuffixFrom(p.rows, stored, p.lo, p.hi, cut);
  }

  lemma {:induction false} PageOfRow(pages: seq<Page>, r: Row) returns (j: nat)
    requires r in Rows(pages)
    ensures j < |pages| && r in pages[j].rows
    decreases |pages|
  {
    if r in pages[|pages| - 1].rows {
      j := |pages| - 1;
    } else {
      j := PageOfRow(pages[..|pages| - 1], r);
    }
  }

  lemma {:induction false} RowsOfPages(pages: seq<Page>, k: nat)
    requires k < |pages|
    ensures forall r :: r in pages[k].rows ==> r in Rows(pages)
    decreases |pages|
  {
    if k < |pages| - 1 {
      RowsOfPages(pages[..|pages| - 1], k);
    }
  }

  // ---- A row lost from a complete series ----

  const FIRST := Row("BTC", Candle(5, 1, 1, 1, 1, 0))
  const LOST := Row("BTC", Candle(15, 1, 1, 1, 1, 0))
  const GAPPED := [Page(0, 9, [[FIRST]], [FIRST]), Page(10, 19, [[]], [])]

  // Answers the window of the first page and nothing else.
  function Gap(): Source {
    (n: nat, lo: int, hi: int) => if n == 0 && lo == 0 && hi == 9 then [FIRST] else []
  }

  // The source holds a row in the second window and answers nothing there. Every window is
  // closed, the end is reached, nothing is wrong with the series, and the row is not in it.
  lemma EmptyWindowLosesARow()
    ensures AnswersBySuffix(Gap(), {FIRST, LOST})
    ensures Windows(GAPPED, 0, 19, 10) && Genuine(Gap(), GAPPED, 5, 1) && Reached(GAPPED, 19)
    ensures Defect(Rows(GAPPED), 0, 19, "BTC").None?
    ensures GAPPED[1].lo + 5 <= Ts(LOST) <= GAPPED[1].hi && LOST !in Rows(GAPPED)
  {
    assert GAPPED[..0] == [] && GAPPED[..1] == [GAPPED[0]] && GAPPED[..2] == GAPPED;
    assert [GAPPED[0]][..0] == [];
    assert Rows(GAPPED[..1]) == [FIRST] && Rows(GAPPED) == [FIRST];
    assert Requests(GAPPED[..1]) == 1;
    SuffixOfGap();
    GapIsGenuine();
  }

  lemma SuffixOfGap()
    ensures AnswersBySuffix(Gap(), {FIRST, LOST})
  {
    forall n: nat, lo, hi
      ensures Answer(Gap(), n, lo, hi) == [] || IsSuffix(Answer(Gap(), n, lo, hi), {FIRST, LOST}, lo, hi)
    {
      if Answer(Gap(), n, lo, hi) != [] {
        assert IsSuffixFrom([FIRST], {FIRST, LOST}, 0, 9, 0);
      }
    }
  }

  lemma GapIsGenuine()
    ensures GenuinePage(Gap(), GAPPED[0], 0, false, 5, 1)
    ensures GenuinePage(Gap(), GAPPED[1], 1, true, 5, 1)
  {
    assert FIRST in [FIRST] && Ts(FIRST) <= 0 + 5;
    assert CoversHead([FIRST], 0 + 5);
  }
}
