/**
 Two histories of the manual bridge in which a settlement that waited for its exchange read takes
 back what became final meanwhile: an accounted intent, and final evidence.
 */
module ManualOverlaps {
  import opened Wrappers
  import opened Money
  import opened Orders
  import opened ManualValidation
  import opened ManualBridge
  import opened ManualHistory
  import Digits
  import P = Portfolio

  const BTC := Symbol("BTC", "CAD")
  const HOLDING := P.EMPTY.(cash := map["CAD" := 0], positions := map[BTC := P.Position(SCALE, 0, 0, None)])
  const FILL := Evidence(Some("7"), Some(Filled), Some(SCALE), Some(SCALE), None)
  const NOTHING := Evidence(Some("7"), Some(OrderStatus.Canceled), Some(0), None, None)
  const OPEN := Evidence(Some("7"), Some(Open), None, None, None)
  const SALE := Intent("m1", EvidenceRecorded, BTC, Sell, Limit, SCALE, Some(SCALE), Some(FILL), 0, None, None)
  const ANSWER :=
    Order("x", Some("7"), BTC, Sell, Limit, Filled, SCALE, SCALE, Some(SCALE), Some(SCALE), 1, QuoteFee, "", None, None)

  // The world before anything waits, with the sale as its only intent.
  function With(i: Intent): World {
    World(Books(HOLDING, map["m1" := i]), map[])
  }

  lemma RunOn(w: World, es: seq<Event>, e: Event)
    ensures Run(w, es + [e]) == Next(Run(w, es), e)
  {
    assert (es + [e])[..|es|] == es;
  }

  lemma RunThree(w: World, a: Event, b: Event, c: Event)
    ensures Run(w, [a, b, c]) == Next(Next(Next(w, a), b), c)
  {
    hide Next;
    RunOn(w, [], a);
    RunOn(w, [a], b);
    RunOn(w, [a, b], c);
    assert [] + [a] == [a] && [a] + [b] == [a, b] && [a, b] + [c] == [a, b, c];
  }

  // ---- Two settlements of one intent ----

  const BOTH_BEGIN := [Begin(0, "m1", P.ExchangeValidated), Begin(1, "m1", P.ExchangeValidated),
      Finish(0, Some(ANSWER), false)]

  // The first accounts the intent, the read of the second fails, and the accounted intent is taken
  // back, with its booking in the portfolio.
  lemma AccountedIntentIsTakenBack()
    ensures Keyed(With(SALE))
    ensures Run(With(SALE), BOTH_BEGIN).books.intents == map["m1" := SALE.(status := AccountedExchange)]
    ensures var v := Run(With(SALE), BOTH_BEGIN + [Finish(1, None, false)]);
            v.books.intents == map["m1" := SALE.(status := ReconciliationRequired)]
                && "m1" in v.books.portfolio.settlements
  {
    var w := With(SALE);
    RunThree(w, BOTH_BEGIN[0], BOTH_BEGIN[1], BOTH_BEGIN[2]);
    assert BOTH_BEGIN == [BOTH_BEGIN[0], BOTH_BEGIN[1], BOTH_BEGIN[2]];
    RunOn(w, BOTH_BEGIN, Finish(1, None, false));
    BothWait(w);
    var two := Next(Next(w, BOTH_BEGIN[0]), BOTH_BEGIN[1]);
    hide Next, Run;
    FirstAccounts(two);
    SecondTakesBack(Next(two, BOTH_BEGIN[2]));
  }

  lemma BothWait(w: World)
    requires w == With(SALE)
    ensures var v := Next(Next(w, BOTH_BEGIN[0]), BOTH_BEGIN[1]);
            v.books == w.books
                && v.settling == map[0 := Settling(SALE, P.ExchangeValidated), 1 := Settling(SALE, P.ExchangeValidated)]
  {
    assert Digits.IsNumeral("7");
    assert !ValidateStructural(SALE, FILL).Invalid?;
  }

  lemma FirstAccounts(w: World)
    requires w.books == With(SALE).books && 0 in w.settling && w.settling[0] == Settling(SALE, P.ExchangeValidated)
    ensures var v := Next(w, Finish(0, Some(ANSWER), false));
            && v.settling == w.settling - {0} && v.books.intents == map["m1" := SALE.(status := AccountedExchange)]
            && "m1" in v.books.portfolio.settlements
  {
    assert Mul(SCALE, SCALE) == SCALE;
    assert ValidateAgainstExchange(SALE, FILL, Some(ANSWER)).Authoritative?;
    assert P.SettleManualOrder(HOLDING, "m1", Booking(SALE, FILL, P.ExchangeValidated, ANSWER)).Success?;
  }

  lemma SecondTakesBack(w: World)
    requires w.books.intents == map["m1" := SALE.(status := AccountedExchange)]
    requires 1 in w.settling && w.settling[1] == Settling(SALE, P.ExchangeValidated)
    ensures var v := Next(w, Finish(1, None, false));
            v.books.intents == map["m1" := SALE.(status := ReconciliationRequired)]
                && v.books.portfolio == w.books.portfolio
  {
  }

  // ---- Evidence recorded while a settlement waits ----

  const RECORD_MEANWHILE := [Begin(0, "m1", P.ExchangeValidated), Record("m1", FILL), Finish(0, None, false)]

  // Final evidence of a fill, recorded while a settlement waits on open evidence, is taken back
  // when its read fails; then evidence that contradicts it is accepted.
  lemma FinalEvidenceIsTakenBack()
    ensures var start := SALE.(evidence := Some(OPEN));
            && Keyed(With(start))
            && Run(With(start), RECORD_MEANWHILE[..2]).books.intents == map["m1" := SALE]
            && Run(With(start), RECORD_MEANWHILE).books.intents == map["m1" := start.(status := ReconciliationRequired)]
            && Run(With(start), RECORD_MEANWHILE + [Record("m1", NOTHING)]).books.intents
                == map["m1" := SALE.(evidence := Some(NOTHING))]
    ensures ProgressConflict(FILL, NOTHING)
  {
    var w := With(SALE.(evidence := Some(OPEN)));
    var es := RECORD_MEANWHILE;
    RunOn(w, [], es[0]);
    RunOn(w, [es[0]], es[1]);
    assert [] + [es[0]] == [es[0]] && es[..2] == [es[0]] + [es[1]];
    RunThree(w, es[0], es[1], es[2]);
    assert es == [es[0], es[1], es[2]];
    RunOn(w, es, Record("m1", NOTHING));
    EvidenceIsOverwritten(w);
    hide Next;
  }

  lemma EvidenceIsOverwritten(w: World)
    requires w == With(SALE.(evidence := Some(OPEN)))
    ensures var w2 := Next(Next(w, RECORD_MEANWHILE[0]), RECORD_MEANWHILE[1]);
            var w3 := Next(w2, RECORD_MEANWHILE[2]);
            && w2.books.intents == map["m1" := SALE]
            && w3.books.intents == map["m1" := w.books.intents["m1"].(status := ReconciliationRequired)]
            && Next(w3, Record("m1", NOTHING)).books.intents == map["m1" := SALE.(evidence := Some(NOTHING))]
  {
    var start := SALE.(evidence := Some(OPEN));
    OneWaits(w, start);
    var w1 := Next(w, RECORD_MEANWHILE[0]);
    Recorded(w1, start, FILL);
    var w2 := Next(w1, RECORD_MEANWHILE[1]);
    hide Next;
    ReadFails(w2, start);
    Recorded(Next(w2, RECORD_MEANWHILE[2]), start.(status := ReconciliationRequired), NOTHING);
  }

  lemma OneWaits(w: World, i: Intent)
    requires w == With(i) && i == SALE.(evidence := Some(OPEN))
    ensures Next(w, Begin(0, "m1", P.ExchangeValidated)) == w.(settling := map[0 := Settling(i, P.ExchangeValidated)])
  {
    assert Digits.IsNumeral("7");
  }

  lemma Recorded(w: World, i: Intent, e: Evidence)
    requires w.books.intents == map["m1" := i] && Readable(w.books.intents) && i.id == "m1" && i.evidence == Some(OPEN)
    requires i.status == EvidenceRecorded || i.status == ReconciliationRequired
    ensures var v := Next(w, Record("m1", e));
            v.books.intents == map["m1" := i.(evidence := Some(e), status := EvidenceRecorded)]
                && v.settling == w.settling
  {
    hide Readable;
    var b := w.books;
    assert EvidenceEffect(b, "m1", e) == Some(Effect(b.portfolio, i.(evidence := Some(e), status := EvidenceRecorded)));
  }

  lemma ReadFails(w: World, i: Intent)
    requires w.books.intents == map["m1" := SALE] && w.settling == map[0 := Settling(i, P.ExchangeValidated)]
    requires i == SALE.(evidence := Some(OPEN))
    ensures Next(w, Finish(0, None, false)).books.intents == map["m1" := i.(status := ReconciliationRequired)]
  {
  }
}
