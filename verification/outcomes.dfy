/** What is recorded when telemetry is discarded: outcome keys, the items and envelopes
    that are recorded, and the quantities (report/aggregator.go, internal/protocol). */
module Outcomes {
  import opened BufferModels
  import opened Wrappers

  datatype Category =
    | CategoryUnknown | CategoryAll | CategoryError | CategoryTransaction | CategorySpan
    | CategoryLog | CategoryLogByte | CategoryMonitor | CategoryTraceMetric

  datatype Reason =
    | QueueOverflow | BufferOverflow | RateLimitBackoff | BeforeSend | EventProcessor
    | SampleRate | NetworkError | SendError | InternalError

  datatype OutcomeKey = OutcomeKey(reason: Reason, category: Category)

  datatype Record = Record(key: OutcomeKey, quantity: int)

  /** An event, check-in, log or metric.  `spans` is GetSpanCount, `size` is ApproximateSize;
      `serializable` says whether json.Marshal succeeds. */
  datatype Item = Item(id: int, category: Category, spans: int, size: int, serializable: bool, attachments: nat)

  datatype ItemType =
    | EventType | TransactionType | CheckInType | AttachmentType | LogType | TraceMetricType | ClientReportType

  datatype EnvelopeItem = EnvelopeItem(itemType: ItemType, length: Option<int>, itemCount: Option<int>, spanCount: int)

  type Envelope = seq<EnvelopeItem>

  // ---------------------------------------------------------------------------
  // The records of one item and of one envelope
  // ---------------------------------------------------------------------------

  /** RecordItem, as the calls of Record that it makes. */
  function ItemRecords(reason: Reason, item: Item): seq<Record> {
    [Record(OutcomeKey(reason, item.category), 1)]
    + (if item.category == CategoryTransaction && item.spans > 0
       then [Record(OutcomeKey(reason, CategorySpan), item.spans)] else [])
    + (if item.category == CategoryLog && item.size > 0
       then [Record(OutcomeKey(reason, CategoryLogByte), item.size)] else [])
  }

  function EnvelopeItemRecords(reason: Reason, e: EnvelopeItem): seq<Record> {
    match e.itemType
    case EventType => [Record(OutcomeKey(reason, CategoryError), 1)]
    case TransactionType =>
      [Record(OutcomeKey(reason, CategoryTransaction), 1), Record(OutcomeKey(reason, CategorySpan), e.spanCount)]
    case LogType =>
      (if e.itemCount.Some? then [Record(OutcomeKey(reason, CategoryLog), e.itemCount.value)] else [])
      + (if e.length.Some? then [Record(OutcomeKey(reason, CategoryLogByte), e.length.value)] else [])
    case TraceMetricType => [Record(OutcomeKey(reason, CategoryTraceMetric), 1)]
    case CheckInType => [Record(OutcomeKey(reason, CategoryMonitor), 1)]
    case AttachmentType => []
    case ClientReportType => []
  }

  /** RecordForEnvelope, as the calls of Record that it makes. */
  function EnvelopeRecords(reason: Reason, envelope: Envelope): seq<Record> {
    if envelope == [] then []
    else EnvelopeItemRecords(reason, envelope[0]) + EnvelopeRecords(reason, envelope[1..])
  }

  /** What one call of Record adds to the counter of `key`. */
  function Effect(r: Record, key: OutcomeKey): nat {
    if r.key == key && r.quantity > 0 then r.quantity else 0
  }

  function Amount(records: seq<Record>, key: OutcomeKey): nat {
    if records == [] then 0 else Effect(records[0], key) + Amount(records[1..], key)
  }

  lemma {:induction false} AmountConcat(a: seq<Record>, b: seq<Record>, key: OutcomeKey)
    ensures Amount(a + b, key) == Amount(a, key) + Amount(b, key)
  {
    if a == [] {
      assert a + b == b;
    } else {
      assert (a + b)[1..] == a[1..] + b;
      AmountConcat(a[1..], b, key);
    }
  }

  // ---------------------------------------------------------------------------
  // Envelopes of items
  // ---------------------------------------------------------------------------

  /** The envelope item of an event; `length` is that of its payload. */
  function EventItem(item: Item, length: int): EnvelopeItem {
    match item.category
    case CategoryTransaction => EnvelopeItem(TransactionType, Some(length), None, item.spans)
    case CategoryMonitor => EnvelopeItem(CheckInType, Some(length), None, 0)
    case _ => EnvelopeItem(EventType, Some(length), None, 0)
  }

  function Attachments(n: nat): (r: Envelope)
    ensures forall i :: 0 <= i < |r| ==> r[i].itemType.AttachmentType?
  {
    if n == 0 then [] else [EnvelopeItem(AttachmentType, Some(0), None, 0)] + Attachments(n - 1)
  }

  /** Event.ToEnvelope: None when the event cannot be serialised. */
  function EventEnvelope(item: Item, length: int): Option<Envelope> {
    if item.serializable then Some([EventItem(item, length)] + Attachments(item.attachments)) else None
  }

  /** Marshalling skips the items that cannot be serialised. */
  function Serializable(items: seq<Item>): seq<Item> {
    if items == [] then []
    else (if items[0].serializable then [items[0]] else []) + Serializable(items[1..])
  }

  function Skipped(items: seq<Item>): seq<Item> {
    if items == [] then []
    else (if items[0].serializable then [] else [items[0]]) + Skipped(items[1..])
  }

  /** ItemContainer.ToEnvelope: None when nothing can be serialised. */
  function ContainerEnvelope(category: Category, items: seq<Item>, length: int): Option<Envelope> {
    var n := |Serializable(items)|;
    if n == 0 then None
    else if category == CategoryLog then Some([EnvelopeItem(LogType, Some(length), Some(n), 0)])
    else if category == CategoryTraceMetric then Some([EnvelopeItem(TraceMetricType, Some(length), Some(n), 0)])
    else None
  }

  // ---------------------------------------------------------------------------
  // Discarding an envelope records what discarding its items would have
  // ---------------------------------------------------------------------------

  lemma {:induction false} UnreportedRecords(reason: Reason, e: Envelope)
    requires forall i :: 0 <= i < |e| ==> e[i].itemType.AttachmentType? || e[i].itemType.ClientReportType?
    ensures EnvelopeRecords(reason, e) == []
  {
    if e != [] {
      UnreportedRecords(reason, e[1..]);
    }
  }

  /** The categories that the client wraps in an envelope of their own. */
  predicate IsEventCategory(c: Category) {
    c.CategoryError? || c.CategoryTransaction? || c.CategoryMonitor?
  }

  /** Attachments, and a client report that was attached, add nothing. */
  lemma {:induction false} EventEnvelopeRecords(reason: Reason, item: Item, length: int, extra: Envelope,
    key: OutcomeKey)
    requires IsEventCategory(item.category) && item.serializable
    requires forall i :: 0 <= i < |extra| ==> extra[i].itemType.ClientReportType?
    ensures Amount(EnvelopeRecords(reason, EventEnvelope(item, length).value + extra), key) ==
      Amount(ItemRecords(reason, item), key)
  {
    var rest := Attachments(item.attachments) + extra;
    var e := EventEnvelope(item, length).value + extra;
    assert e == [EventItem(item, length)] + rest && e[1..] == rest;
    UnreportedRecords(reason, rest);
    var records := EnvelopeItemRecords(reason, EventItem(item, length));
    assert EnvelopeRecords(reason, e) == records;
    if item.category == CategoryTransaction {
      assert Amount(records, key) == Effect(records[0], key) + Amount(records[1..], key);
      assert Amount(records[1..], key) == Effect(records[1], key);
    }
  }

  /** The total of a quantity over discarded items. */
  function ItemAmount(reason: Reason, items: seq<Item>, key: OutcomeKey): nat {
    if items == [] then 0
    else Amount(ItemRecords(reason, items[0]), key) + ItemAmount(reason, items[1..], key)
  }

  lemma {:induction false} ItemAmountConcat(reason: Reason, a: seq<Item>, b: seq<Item>, key: OutcomeKey)
    ensures ItemAmount(reason, a + b, key) == ItemAmount(reason, a, key) + ItemAmount(reason, b, key)
  {
    if a == [] {
      assert a + b == b;
    } else {
      assert (a + b)[1..] == a[1..] + b;
      ItemAmountConcat(reason, a[1..], b, key);
    }
  }

  /** The quantity of a category other than spans and bytes is the number of items. */
  lemma {:induction false} ItemAmountIsCount(reason: Reason, items: seq<Item>, category: Category, key: OutcomeKey)
    requires forall i :: 0 <= i < |items| ==> items[i].category == category
    requires !category.CategorySpan? && !category.CategoryLogByte? && !category.CategoryTransaction?
    requires !key.category.CategoryLogByte?
    ensures ItemAmount(reason, items, key) == if key == OutcomeKey(reason, category) then |items| else 0
  {
    if items != [] {
      ItemAmountIsCount(reason, items[1..], category, key);
      var records := ItemRecords(reason, items[0]);
      assert Amount(records, key) == Effect(records[0], key) + Amount(records[1..], key);
    }
  }

  /** Except for bytes: an envelope records its payload, an item its approximate size. */
  lemma {:induction false} LogEnvelopeRecords(reason: Reason, items: seq<Item>, length: int, extra: Envelope,
    key: OutcomeKey)
    requires forall i :: 0 <= i < |items| ==> items[i].category.CategoryLog?
    requires Serializable(items) != [] && !key.category.CategoryLogByte?
    requires forall i :: 0 <= i < |extra| ==> extra[i].itemType.ClientReportType?
    ensures Amount(EnvelopeRecords(reason, ContainerEnvelope(CategoryLog, items, length).value + extra), key) ==
      ItemAmount(reason, Serializable(items), key)
  {
    SerializableCategory(items, CategoryLog);
    ItemAmountIsCount(reason, Serializable(items), CategoryLog, key);
    var e := ContainerEnvelope(CategoryLog, items, length).value + extra;
    assert e[1..] == extra;
    UnreportedRecords(reason, extra);
    var records := EnvelopeItemRecords(reason, e[0]);
    assert EnvelopeRecords(reason, e) == records;
    assert Amount(records, key) == Effect(records[0], key) + Amount(records[1..], key);
    assert Amount(records[1..], key) == Effect(records[1], key);
  }

  lemma {:induction false} SerializableCategory(items: seq<Item>, category: Category)
    requires forall i :: 0 <= i < |items| ==> items[i].category == category
    ensures forall i :: 0 <= i < |Serializable(items)| ==> Serializable(items)[i].category == category
  {
    if items != [] {
      SerializableCategory(items[1..], category);
    }
  }

  /** A trace-metric envelope records one, whatever it carries. */
  lemma {:induction false} MetricEnvelopeRecords(reason: Reason, items: seq<Item>, length: int, extra: Envelope,
    key: OutcomeKey)
    requires Serializable(items) != []
    requires forall i :: 0 <= i < |extra| ==> extra[i].itemType.ClientReportType?
    ensures Amount(EnvelopeRecords(reason, ContainerEnvelope(CategoryTraceMetric, items, length).value + extra), key) ==
      if key == OutcomeKey(reason, CategoryTraceMetric) then 1 else 0
  {
    var e := ContainerEnvelope(CategoryTraceMetric, items, length).value + extra;
    assert e[1..] == extra;
    UnreportedRecords(reason, extra);
    var records := EnvelopeItemRecords(reason, e[0]);
    assert EnvelopeRecords(reason, e) == records;
  }

  /** A discarded log is also recorded by its approximate size in bytes, other items are not. */
  lemma ItemBytes(reason: Reason, item: Item)
    requires !item.category.CategoryLogByte?
    ensures Amount(ItemRecords(reason, item), OutcomeKey(reason, CategoryLogByte))
      == if item.category.CategoryLog? && item.size > 0 then item.size else 0
  {
    var records, key := ItemRecords(reason, item), OutcomeKey(reason, CategoryLogByte);
    assert Amount(records, key) == Effect(records[0], key) + Amount(records[1..], key);
    if |records| > 1 {
      assert Amount(records[1..], key) == Effect(records[1], key) + Amount(records[1..][1..], key);
    }
  }

  /** A discarded envelope of logs is recorded by the length of its payload. */
  lemma LogEnvelopeBytes(reason: Reason, items: seq<Item>, length: int)
    requires Serializable(items) != []
    ensures Amount(EnvelopeRecords(reason, ContainerEnvelope(CategoryLog, items, length).value), OutcomeKey(reason, CategoryLogByte))
      == if length > 0 then length else 0
  {
    var e, key := ContainerEnvelope(CategoryLog, items, length).value, OutcomeKey(reason, CategoryLogByte);
    assert e[1..] == [];
    var records := EnvelopeItemRecords(reason, e[0]);
    assert EnvelopeRecords(reason, e) == records;
    assert Amount(records, key) == Effect(records[0], key) + Amount(records[1..], key);
    assert Amount(records[1..], key) == Effect(records[1], key) + Amount(records[1..][1..], key);
  }
}
