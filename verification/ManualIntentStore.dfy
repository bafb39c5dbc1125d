/**
 The stored form of manual intents (src/manual/ManualIntentStore.ts): money as decimal text, the
 checks a load makes on every entry, and the migration of the first payload version.
 */
module ManualIntentStore {
  import opened Wrappers
  import opened Money
  import opened Orders
  import opened DecimalText
  import opened ManualValidation
  import opened ManualBridge

  // ---- The record and its JSON form ----

  // What a snapshot carries besides its amounts, written as it is.
  datatype Context = Context(
    symbol: Symbol,
    side: Side,
    orderType: OrderType,
    quoteCurrency: string,
    openPositions: int,
    appliedLimits: map<string, string>,
    marketDataTimestampMs: Option<int>,
    marketDataObservedAtMs: int,
    proposalTimeMs: int)

  datatype Snapshot = Snapshot(
    context: Context,
    referencePrice: Money,
    estimatedNotional: Money,
    estimatedFee: Money,
    requiredBalance: Money,
    deployableQuote: Money,
    portfolioValue: Money,
    peakPortfolioValue: Money,
    portfolioExposure: Money,
    currentPosition: Money)

  datatype Event = Event(ts: int, kind: string, operator: bool, detail: Option<string>)

  datatype EvidenceSource = Operator | ExchangeRead | NdaxUi | NdaxApi | OtherSource

  // Where the recorded evidence came from.
  datatype Provenance = Provenance(feeInQuote: bool, source: EvidenceSource, recordedAtMs: int, note: Option<string>)

  datatype Record = Record(
    intent: Intent,
    tif: Option<Tif>,
    reason: string,
    snapshot: Snapshot,
    provenance: Option<Provenance>,
    confirmedBy: Option<string>,
    updatedAtMs: int,
    events: seq<Event>)
  {
    // The provenance is part of the evidence.
    predicate WellFormed() {
      provenance.Some? <==> intent.evidence.Some?
    }
  }

  datatype JsonSnapshot = JsonSnapshot(
    context: Context,
    referencePrice: string,
    estimatedNotional: string,
    estimatedFee: string,
    requiredBalance: string,
    deployableQuote: string,
    portfolioValue: string,
    peakPortfolioValue: string,
    portfolioExposure: string,
    currentPosition: string)

  datatype JsonEvidence = JsonEvidence(
    orderId: Option<string>,
    status: Option<OrderStatus>,
    filledQuantity: Option<string>,
    averagePrice: Option<string>,
    fee: Option<string>,
    feeCurrency: string,
    source: string,
    recordedAtMs: int,
    note: Option<string>)

  datatype Json = Json(
    id: string,
    status: string,
    symbol: Symbol,
    side: string,
    orderType: string,
    quantity: string,
    limitPrice: Option<string>,
    tif: Option<Tif>,
    reason: string,
    evidence: Option<JsonEvidence>,
    createdAtMs: int,
    reservationCurrency: Option<string>,
    reservationAmount: Option<string>,
    snapshot: JsonSnapshot,
    confirmedBy: Option<string>,
    updatedAtMs: int,
    events: seq<Event>)

  // ---- Names ----

  function SideName(side: Side): string {
    if side == Buy then "BUY" else "SELL"
  }

  function ParseSide(name: string): Option<Side> {
    if name == "BUY" then Some(Buy) else if name == "SELL" then Some(Sell) else None
  }

  function TypeName(t: OrderType): string {
    if t == Market then "market" else "limit"
  }

  function ParseType(name: string): Option<OrderType> {
    if name == "market" then Some(Market) else if name == "limit" then Some(Limit) else None
  }

  function FeeCurrencyName(inQuote: bool): string {
    if inQuote then "quote" else "base"
  }

  function ParseFeeCurrency(name: string): Option<bool> {
    if name == "quote" then Some(true) else if name == "base" then Some(false) else None
  }

  function SourceName(s: EvidenceSource): string {
    match s
    case Operator => "operator"
    case ExchangeRead => "exchange_read"
    case NdaxUi => "ndax_ui"
    case NdaxApi => "ndax_api"
    case OtherSource => "other"
  }

  function ParseSource(name: string): Option<EvidenceSource> {
    if name == "operator" then Some(Operator)
    else if name == "exchange_read" then Some(ExchangeRead)
    else if name == "ndax_ui" then Some(NdaxUi)
    else if name == "ndax_api" then Some(NdaxApi)
    else if name == "other" then Some(OtherSource)
    else None
  }

  // ---- Status names and versions ----

  function StatusName(s: IntentStatus): string {
    match s
    case Proposed => "PROPOSED"
    case Confirmed => "CONFIRMED"
    case EvidenceRecorded => "EVIDENCE_RECORDED"
    case PendingFill => "PENDING"
    case AccountedExchange => "ACCOUNTED_WITH_EXCHANGE_VALIDATION"
    case AccountedOperator => "ACCOUNTED_WITH_OPERATOR_ATTESTATION"
    case ReconciliationRequired => "RECONCILIATION_REQUIRED"
    case CanceledIntent => "CANCELED"
    case VoidIntent => "VOID"
    case Ambiguous => "AMBIGUOUS"
  }

  function ParseStatus(name: string): Option<IntentStatus> {
    if name == "PROPOSED" then Some(Proposed)
    else if name == "CONFIRMED" then Some(Confirmed)
    else if name == "EVIDENCE_RECORDED" then Some(EvidenceRecorded)
    else if name == "PENDING" then Some(PendingFill)
    else if name == "ACCOUNTED_WITH_EXCHANGE_VALIDATION" then Some(AccountedExchange)
    else if name == "ACCOUNTED_WITH_OPERATOR_ATTESTATION" then Some(AccountedOperator)
    else if name == "RECONCILIATION_REQUIRED" then Some(ReconciliationRequired)
    else if name == "CANCELED" then Some(CanceledIntent)
    else if name == "VOID" then Some(VoidIntent)
    else if name == "AMBIGUOUS" then Some(Ambiguous)
    else None
  }

  predicate ValidStatus(version: nat, name: string) {
    if version == 1 then
      name in {"PROPOSED", "CONFIRMED", "EVIDENCE_RECORDED", "SETTLED", "CANCELED", "VOID", "AMBIGUOUS"}
    else ParseStatus(name).Some?
  }

  function Migrate(version: nat, j: Json): Json {
    if version == 1 && j.status == "SETTLED" then j.(status := "ACCOUNTED_WITH_EXCHANGE_VALIDATION") else j
  }

  // ---- Writing and reading ----

  function Text(m: Option<Money>): Option<string> {
    if m.None? then None else Some(ToText(m.value))
  }

  // A nullable amount: absent, or text that must parse.
  function Amount(t: Option<string>): Option<Option<Money>> {
    if t.None? then Some(None)
    else
      var m := FromText(t.value);
      if m.None? then None else Some(m)
  }

  function EvidenceToJson(e: Evidence, p: Provenance): JsonEvidence {
    JsonEvidence(e.orderId, e.status, Text(e.filledQuantity), Text(e.averagePrice), Text(e.fee),
                 FeeCurrencyName(p.feeInQuote), SourceName(p.source), p.recordedAtMs, p.note)
  }

  function SnapshotToJson(s: Snapshot): JsonSnapshot {
    JsonSnapshot(s.context, ToText(s.referencePrice), ToText(s.estimatedNotional), ToText(s.estimatedFee),
                 ToText(s.requiredBalance), ToText(s.deployableQuote), ToText(s.portfolioValue),
                 ToText(s.peakPortfolioValue), ToText(s.portfolioExposure), ToText(s.currentPosition))
  }

  function IntentToJson(r: Record): Json
    requires r.WellFormed()
  {
    var i := r.intent;
    Json(i.id, StatusName(i.status), i.symbol, SideName(i.side), TypeName(i.orderType), ToText(i.quantity),
         Text(i.limitPrice), r.tif, r.reason,
         if i.evidence.None? then None else Some(EvidenceToJson(i.evidence.value, r.provenance.value)),
         i.createdAtMs, i.reservationCurrency, Text(i.reservationAmount), SnapshotToJson(r.snapshot),
         r.confirmedBy, r.updatedAtMs, WithoutEmptyDetails(r.events))
  }

  // An empty detail is left out.
  function WithoutEmptyDetails(es: seq<Event>): seq<Event>
    decreases |es|
  {
    if es == [] then []
    else [if es[0].detail == Some("") then es[0].(detail := None) else es[0]] + WithoutEmptyDetails(es[1..])
  }

  function SnapshotFromJson(s: JsonSnapshot): Option<Snapshot> {
    var a, b, c := FromText(s.referencePrice), FromText(s.estimatedNotional), FromText(s.estimatedFee);
    var d, e, f := FromText(s.requiredBalance), FromText(s.deployableQuote), FromText(s.portfolioValue);
    var g, h, i := FromText(s.peakPortfolioValue), FromText(s.portfolioExposure), FromText(s.currentPosition);
    if a.None? || b.None? || c.None? || d.None? || e.None? || f.None? || g.None? || h.None? || i.None? then None
    else Some(Snapshot(s.context, a.value, b.value, c.value, d.value, e.value, f.value, g.value, h.value, i.value))
  }

  function EvidenceFromJson(j: JsonEvidence): Option<(Evidence, Provenance)> {
    var filled, price, fee := Amount(j.filledQuantity), Amount(j.averagePrice), Amount(j.fee);
    var inQuote, source := ParseFeeCurrency(j.feeCurrency), ParseSource(j.source);
    if filled.None? || price.None? || fee.None? || inQuote.None? || source.None? then None
    else Some((Evidence(j.orderId, j.status, filled.value, price.value, fee.value),
               Provenance(inQuote.value, source.value, j.recordedAtMs, j.note)))
  }

  function IntentFromJson(j: Json): Option<Record> {
    var status, side, orderType := ParseStatus(j.status), ParseSide(j.side), ParseType(j.orderType);
    var quantity, limitPrice := FromText(j.quantity), Amount(j.limitPrice);
    var amount, snapshot := Amount(j.reservationAmount), SnapshotFromJson(j.snapshot);
    var evidence := if j.evidence.None? then None else EvidenceFromJson(j.evidence.value);
    if status.None? || side.None? || orderType.None? || quantity.None? || limitPrice.None? || amount.None?
       || snapshot.None? then None
    else if j.evidence.Some? && evidence.None? then None
    else Some(Record(Intent(j.id, status.value, j.symbol, side.value, orderType.value, quantity.value, limitPrice.value,
                            if evidence.Some? then Some(evidence.value.0) else None,
                            j.createdAtMs, j.reservationCurrency, amount.value),
                     j.tif, j.reason, snapshot.value, if evidence.Some? then Some(evidence.value.1) else None,
                     j.confirmedBy, j.updatedAtMs, WithoutEmptyDetails(j.events)))
  }

  lemma AmountRoundTrip(m: Option<Money>)
    ensures Amount(Text(m)) == Some(m)
  {
    if m.Some? { RoundTrip(m.value); }
  }

  lemma StatusRoundTrip(s: IntentStatus)
    ensures ParseStatus(StatusName(s)) == Some(s)
  {
  }

  lemma NamesRoundTrip(side: Side, t: OrderType, inQuote: bool, source: EvidenceSource)
    ensures ParseSide(SideName(side)) == Some(side) && ParseType(TypeName(t)) == Some(t)
    ensures ParseFeeCurrency(FeeCurrencyName(inQuote)) == Some(inQuote)
        && ParseSource(SourceName(source)) == Some(source)
  {
  }

  lemma {:induction false} EmptyDetailsOnce(es: seq<Event>)
    ensures WithoutEmptyDetails(WithoutEmptyDetails(es)) == WithoutEmptyDetails(es)
    decreases |es|
  {
    if es != [] {
      EmptyDetailsOnce(es[1..]);
      assert WithoutEmptyDetails(es)[1..] == WithoutEmptyDetails(es[1..]);
    }
  }

  lemma SnapshotRoundTrip(s: Snapshot)
    ensures SnapshotFromJson(SnapshotToJson(s)) == Some(s)
  {
    hide FromText, ToText;
    RoundTrip(s.referencePrice);
    RoundTrip(s.estimatedNotional);
    RoundTrip(s.estimatedFee);
    RoundTrip(s.requiredBalance);
    RoundTrip(s.deployableQuote);
    RoundTrip(s.portfolioValue);
    RoundTrip(s.peakPortfolioValue);
    RoundTrip(s.portfolioExposure);
    RoundTrip(s.currentPosition);
  }

  lemma EvidenceRoundTrip(e: Evidence, p: Provenance)
    ensures EvidenceFromJson(EvidenceToJson(e, p)) == Some((e, p))
  {
    NamesRoundTrip(Buy, Market, p.feeInQuote, p.source);
    hide Text, Amount, FeeCurrencyName, SourceName, ParseFeeCurrency, ParseSource;
    AmountRoundTrip(e.filledQuantity);
    AmountRoundTrip(e.averagePrice);
    AmountRoundTrip(e.fee);
  }

  // A stored intent is read back as it was, up to empty event details.
  lemma StoredIntentRoundTrip(r: Record)
    requires r.WellFormed()
    ensures IntentFromJson(IntentToJson(r)) == Some(r.(events := WithoutEmptyDetails(r.events)))
  {
    NamesRoundTrip(r.intent.side, r.intent.orderType, true, Operator);
    hide FromText, ToText, Text, Amount, SnapshotFromJson, SnapshotToJson, EvidenceFromJson, EvidenceToJson;
    hide WithoutEmptyDetails, ParseStatus, StatusName, ParseSide, SideName, ParseType, TypeName;
    RoundTrip(r.intent.quantity);
    AmountRoundTrip(r.intent.limitPrice);
    AmountRoundTrip(r.intent.reservationAmount);
    SnapshotRoundTrip(r.snapshot);
    StatusRoundTrip(r.intent.status);
    EmptyDetailsOnce(r.events);
    if r.intent.evidence.Some? { EvidenceRoundTrip(r.intent.evidence.value, r.provenance.value); }
  }

  // ---- What a load accepts ----

  predicate Parses(t: Option<string>, positive: bool, nonNegative: bool) {
    t.Some? ==>
      var m := FromText(t.value);
      m.Some? && (positive ==> m.value > 0) && (nonNegative ==> m.value >= 0)
  }

  // The checks on one entry; the other snapshot amounts are not checked there.
  predicate ValidEntry(key: string, j: Json, version: nat) {
    && j.id == key && j.id != "" && ValidStatus(version, j.status) && ParseSide(j.side).Some?
    && ParseType(j.orderType).Some?
    && Parses(Some(j.quantity), true, false) && Parses(j.limitPrice, true, false)
    && Parses(Some(j.snapshot.referencePrice), false, false) && Parses(Some(j.snapshot.estimatedNotional), false, false)
    && Parses(Some(j.snapshot.estimatedFee), false, false) && Parses(Some(j.snapshot.requiredBalance), false, false)
    && (j.evidence.Some? ==>
          && ParseFeeCurrency(j.evidence.value.feeCurrency).Some? && ParseSource(j.evidence.value.source).Some?
          && Parses(j.evidence.value.filledQuantity, false, true)
          && Parses(j.evidence.value.averagePrice, false, false) && Parses(j.evidence.value.fee, false, false))
    && Parses(j.reservationAmount, true, false)
  }

  lemma ParsesWritten(m: Option<Money>, positive: bool, nonNegative: bool)
    ensures Parses(Text(m), positive, nonNegative)
       <==> (m.Some? ==> (positive ==> m.value > 0) && (nonNegative ==> m.value >= 0))
  {
    if m.Some? { RoundTrip(m.value); }
    hide FromText, ToText;
  }

  // What the bridge writes is loaded again exactly when its amounts are loadable: the condition
  // the bridge model tests before every operation.
  lemma WrittenEntryIsValidIff(key: string, r: Record)
    requires r.WellFormed()
    ensures ValidEntry(key, IntentToJson(r), 2) <==> key == r.intent.id && key != "" && Loadable(r.intent)
  {
    var i, s := r.intent, r.snapshot;
    StatusRoundTrip(i.status);
    NamesRoundTrip(i.side, i.orderType, true, Operator);
    ParsesWritten(Some(i.quantity), true, false);
    ParsesWritten(i.limitPrice, true, false);
    ParsesWritten(i.reservationAmount, true, false);
    ParsesWritten(Some(s.referencePrice), false, false);
    ParsesWritten(Some(s.estimatedNotional), false, false);
    ParsesWritten(Some(s.estimatedFee), false, false);
    ParsesWritten(Some(s.requiredBalance), false, false);
    if i.evidence.Some? {
      NamesRoundTrip(i.side, i.orderType, r.provenance.value.feeInQuote, r.provenance.value.source);
      ParsesWritten(i.evidence.value.filledQuantity, false, true);
      ParsesWritten(i.evidence.value.averagePrice, false, false);
      ParsesWritten(i.evidence.value.fee, false, false);
    }
    hide Parses, ToText, StatusName, ParseStatus, WithoutEmptyDetails;
    hide ParseSide, SideName, ParseType, TypeName, ParseFeeCurrency, FeeCurrencyName, ParseSource, SourceName;
  }

  // A payload of the first version is readable after its migration, and the conflated status of
  // that version is read as accounted; in the second version it is refused.
  lemma MigrationIsSound(key: string, j: Json)
    requires ValidEntry(key, j, 1)
    ensures ValidEntry(key, Migrate(1, j), 2) && Migrate(2, Migrate(1, j)) == Migrate(1, j)
    ensures ParseStatus(Migrate(1, j).status)
         == (if j.status == "SETTLED" then Some(AccountedExchange) else ParseStatus(j.status))
    ensures j.status == "SETTLED" ==> !ValidEntry(key, j, 2)
  {
    hide Parses;
  }
}
