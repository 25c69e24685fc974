/** The client-report Aggregator (report/aggregator.go). */
module Aggregators {
  import opened BufferModels
  import opened Outcomes
  import opened Wrappers

  type Counters = map<OutcomeKey, int>

  datatype DiscardedEvent = DiscardedEvent(key: OutcomeKey, quantity: int)

  /** The counters after one call of Record. */
  function Recorded(outcomes: Counters, r: Record): Counters {
    if r.quantity <= 0 then outcomes
    else outcomes[r.key := (if r.key in outcomes then outcomes[r.key] else 0) + r.quantity]
  }

  function RecordedAll(outcomes: Counters, records: seq<Record>): Counters
    decreases |records|
  {
    if records == [] then outcomes
    else RecordedAll(Recorded(outcomes, records[0]), records[1..])
  }

  predicate Positive(outcomes: Counters) {
    forall k :: k in outcomes ==> outcomes[k] > 0
  }

  function Pending(outcomes: Counters, key: OutcomeKey): int {
    if key in outcomes then outcomes[key] else 0
  }

  /** A report lists every counter once, in some order. */
  ghost predicate Reports(events: seq<DiscardedEvent>, outcomes: Counters) {
    && (forall i, j :: 0 <= i < j < |events| ==> events[i].key != events[j].key)
    && (forall i :: 0 <= i < |events| ==> events[i].key in outcomes && events[i].quantity == outcomes[events[i].key])
    && (forall k :: k in outcomes ==> exists i :: 0 <= i < |events| && events[i].key == k)
  }

  function Quantity(events: seq<DiscardedEvent>, key: OutcomeKey): int {
    if events == [] then 0
    else (if events[0].key == key then events[0].quantity else 0) + Quantity(events[1..], key)
  }

  // ---------------------------------------------------------------------------
  // Quantities
  // ---------------------------------------------------------------------------

  lemma RecordedPending(outcomes: Counters, r: Record, key: OutcomeKey)
    requires Positive(outcomes)
    ensures Positive(Recorded(outcomes, r))
    ensures Pending(Recorded(outcomes, r), key) == Pending(outcomes, key) + Effect(r, key)
  {
  }

  lemma {:induction false} RecordedAllPending(outcomes: Counters, records: seq<Record>, key: OutcomeKey)
    requires Positive(outcomes)
    ensures Positive(RecordedAll(outcomes, records))
    ensures Pending(RecordedAll(outcomes, records), key) == Pending(outcomes, key) + Amount(records, key)
    decreases |records|
  {
    if records != [] {
      RecordedPending(outcomes, records[0], key);
      RecordedAllPending(Recorded(outcomes, records[0]), records[1..], key);
    }
  }

  lemma {:induction false} RecordedConcat(outcomes: Counters, a: seq<Record>, b: seq<Record>)
    ensures RecordedAll(outcomes, a + b) == RecordedAll(RecordedAll(outcomes, a), b)
    decreases |a|
  {
    if a == [] {
      assert a + b == b;
    } else {
      assert (a + b)[1..] == a[1..] + b;
      RecordedConcat(Recorded(outcomes, a[0]), a[1..], b);
    }
  }

  lemma RecordedSnoc(outcomes: Counters, records: seq<Record>, r: Record)
    ensures RecordedAll(outcomes, records + [r]) == Recorded(RecordedAll(outcomes, records), r)
  {
    RecordedConcat(outcomes, records, [r]);
  }

  lemma {:induction false} QuantityAbsent(events: seq<DiscardedEvent>, key: OutcomeKey)
    requires forall i :: 0 <= i < |events| ==> events[i].key != key
    ensures Quantity(events, key) == 0
  {
    if events != [] {
      QuantityAbsent(events[1..], key);
    }
  }

  lemma {:induction false} QuantityAt(events: seq<DiscardedEvent>, i: nat)
    requires i < |events|
    requires forall a, b :: 0 <= a < b < |events| ==> events[a].key != events[b].key
    ensures Quantity(events, events[i].key) == events[i].quantity
  {
    if i == 0 {
      QuantityAbsent(events[1..], events[0].key);
    } else {
      QuantityAt(events[1..], i - 1);
    }
  }

  /** A report says of every key what its counter was. */
  lemma ReportQuantity(events: seq<DiscardedEvent>, outcomes: Counters, key: OutcomeKey)
    requires Reports(events, outcomes)
    ensures Quantity(events, key) == Pending(outcomes, key)
  {
    if key in outcomes {
      var i :| 0 <= i < |events| && events[i].key == key;
      QuantityAt(events, i);
    } else {
      QuantityAbsent(events, key);
    }
  }

  // ---------------------------------------------------------------------------
  // The class
  // ---------------------------------------------------------------------------

  class Aggregator {
    var outcomes: Counters

    /** Every counter that exists is positive: Record ignores the rest, and TakeReport deletes the empty ones. */
    ghost predicate Valid()
      reads this
    {
      Positive(outcomes)
    }

    constructor ()
      ensures Valid() && outcomes == map[]
    {
      outcomes := map[];
    }

    method Record(reason: Reason, category: Category, quantity: int)
      requires Valid()
      modifies this
      ensures Valid() && outcomes == Recorded(old(outcomes), Outcomes.Record(OutcomeKey(reason, category), quantity))
    {
      if quantity <= 0 {
        return;
      }
      var key := OutcomeKey(reason, category);
      if key !in outcomes {
        outcomes := outcomes[key := 0];
      }
      outcomes := outcomes[key := outcomes[key] + quantity];
    }

    method RecordOne(reason: Reason, category: Category)
      requires Valid()
      modifies this
      ensures Valid() && outcomes == RecordedAll(old(outcomes), [Outcomes.Record(OutcomeKey(reason, category), 1)])
    {
      Record(reason, category, 1);
    }

    method RecordItem(reason: Reason, item: Item)
      requires Valid()
      modifies this
      ensures Valid() && outcomes == RecordedAll(old(outcomes), ItemRecords(reason, item))
    {
      RecordOne(reason, item.category);
      ghost var records := [Outcomes.Record(OutcomeKey(reason, item.category), 1)];
      if item.category == CategoryTransaction {
        if item.spans > 0 {
          Record(reason, CategorySpan, item.spans);
          RecordedSnoc(old(outcomes), records, Outcomes.Record(OutcomeKey(reason, CategorySpan), item.spans));
          records := records + [Outcomes.Record(OutcomeKey(reason, CategorySpan), item.spans)];
        }
      }
      if item.category == CategoryLog {
        if item.size > 0 {
          Record(reason, CategoryLogByte, item.size);
          RecordedSnoc(old(outcomes), records, Outcomes.Record(OutcomeKey(reason, CategoryLogByte), item.size));
          records := records + [Outcomes.Record(OutcomeKey(reason, CategoryLogByte), item.size)];
        }
      }
      assert ItemRecords(reason, item) == records;
    }

    method RecordForEnvelope(reason: Reason, envelope: Envelope)
      requires Valid()
      modifies this
      ensures Valid() && outcomes == RecordedAll(old(outcomes), EnvelopeRecords(reason, envelope))
    {
      for i := 0 to |envelope|
        invariant Valid()
        invariant RecordedAll(outcomes, EnvelopeRecords(reason, envelope[i..])) ==
          RecordedAll(old(outcomes), EnvelopeRecords(reason, envelope))
      {
        RecordedConcat(outcomes, EnvelopeItemRecords(reason, envelope[i]), EnvelopeRecords(reason, envelope[i + 1..]));
        assert envelope[i..][1..] == envelope[i + 1..];
        RecordForEnvelopeItem(reason, envelope[i]);
      }
    }

    /** The switch of RecordForEnvelope. */
    method RecordForEnvelopeItem(reason: Reason, item: EnvelopeItem)
      requires Valid()
      modifies this
      ensures Valid() && outcomes == RecordedAll(old(outcomes), EnvelopeItemRecords(reason, item))
    {
      match item.itemType {
        case EventType =>
          RecordOne(reason, CategoryError);
        case TransactionType =>
          RecordOne(reason, CategoryTransaction);
          Record(reason, CategorySpan, item.spanCount);
          RecordedSnoc(old(outcomes), [Outcomes.Record(OutcomeKey(reason, CategoryTransaction), 1)],
            Outcomes.Record(OutcomeKey(reason, CategorySpan), item.spanCount));
        case LogType =>
          if item.itemCount.Some? {
            Record(reason, CategoryLog, item.itemCount.value);
          }
          if item.length.Some? {
            Record(reason, CategoryLogByte, item.length.value);
            RecordedSnoc(old(outcomes),
              if item.itemCount.Some? then [Outcomes.Record(OutcomeKey(reason, CategoryLog), item.itemCount.value)] else [],
              Outcomes.Record(OutcomeKey(reason, CategoryLogByte), item.length.value));
          }
        case TraceMetricType =>
          RecordOne(reason, CategoryTraceMetric);
        case CheckInType =>
          RecordOne(reason, CategoryMonitor);
        case AttachmentType =>
        case ClientReportType =>
      }
    }

    /** All counters are taken and none is left. */
    method TakeReport() returns (r: Option<seq<DiscardedEvent>>)
      requires Valid()
      modifies this
      ensures Valid() && outcomes == map[]
      ensures r.None? <==> old(outcomes) == map[]
      ensures r.Some? ==> Reports(r.value, old(outcomes))
    {
      if |outcomes| == 0 {
        return None;
      }
      var events := SwapCounters();
      DeleteEmpty();
      if |events| == 0 {
        return None;
      }
      r := Some(events);
    }

    /** The first loop of TakeReport: every counter is set to 0 and its value reported. */
    method SwapCounters() returns (events: seq<DiscardedEvent>)
      requires Valid()
      modifies this
      ensures Reports(events, old(outcomes))
      ensures forall k :: k in outcomes ==> outcomes[k] == 0
    {
      events := [];
      var rest := outcomes.Keys;
      while rest != {}
        invariant outcomes.Keys == old(outcomes).Keys && rest <= outcomes.Keys
        invariant forall k :: k in outcomes ==> outcomes[k] == if k in rest then old(outcomes)[k] else 0
        invariant forall i, j :: 0 <= i < j < |events| ==> events[i].key != events[j].key
        invariant forall i :: 0 <= i < |events| ==>
          events[i].key in old(outcomes) && events[i].key !in rest && events[i].quantity == old(outcomes)[events[i].key]
        invariant forall k :: k in outcomes && k !in rest ==> exists i :: 0 <= i < |events| && events[i].key == k
      {
        var key :| key in rest;
        var quantity := outcomes[key];
        outcomes := outcomes[key := 0];
        rest := rest - {key};
        if quantity > 0 {
          ghost var before := events;
          events := events + [DiscardedEvent(key, quantity)];
          assert events[|before|].key == key;
          assert forall i :: 0 <= i < |before| ==> events[i] == before[i];
        }
      }
    }

    /** The second loop of TakeReport. */
    method DeleteEmpty()
      requires forall k :: k in outcomes ==> outcomes[k] == 0
      modifies this
      ensures outcomes == map[]
    {
      var rest := outcomes.Keys;
      while rest != {}
        invariant outcomes.Keys == rest
        invariant forall k :: k in outcomes ==> outcomes[k] == 0
      {
        var key :| key in rest;
        if outcomes[key] == 0 {
          outcomes := outcomes - {key};
        }
        rest := rest - {key};
      }
    }
  }

  // ---------------------------------------------------------------------------
  // Every run
  // ---------------------------------------------------------------------------

  /** A call of RecordItem or RecordForEnvelope makes several records; a TakeReport that
      returns nothing reports no events. */
  datatype Op = RecordOp(records: seq<Record>) | TakeOp(events: seq<DiscardedEvent>)

  datatype Ledger = Ledger(outcomes: Counters, recorded: seq<Record>, taken: seq<DiscardedEvent>)

  ghost predicate Legal(l: Ledger, op: Op) {
    op.TakeOp? ==> Reports(op.events, l.outcomes)
  }

  function Do(l: Ledger, op: Op): Ledger {
    match op
    case RecordOp(records) => Ledger(RecordedAll(l.outcomes, records), l.recorded + records, l.taken)
    case TakeOp(events) => Ledger(map[], l.recorded, l.taken + events)
  }

  ghost predicate IsRun(ls: seq<Ledger>, ops: seq<Op>) {
    && |ls| == |ops| + 1 && ls[0] == Ledger(map[], [], [])
    && forall i :: 0 <= i < |ops| ==> Legal(ls[i], ops[i]) && ls[i + 1] == Do(ls[i], ops[i])
  }

  /** The counters, all that was recorded, and for each key what reports took. */
  ghost predicate Accounts(outcomes: Counters, recorded: seq<Record>, taken: seq<DiscardedEvent>) {
    Positive(outcomes) &&
    forall key :: Quantity(taken, key) + Pending(outcomes, key) == Amount(recorded, key)
  }

  lemma {:induction false} QuantityConcat(a: seq<DiscardedEvent>, b: seq<DiscardedEvent>, key: OutcomeKey)
    ensures Quantity(a + b, key) == Quantity(a, key) + Quantity(b, key)
  {
    if a == [] {
      assert a + b == b;
    } else {
      assert (a + b)[1..] == a[1..] + b;
      QuantityConcat(a[1..], b, key);
    }
  }

  lemma RecordKeepsAccounts(outcomes: Counters, recorded: seq<Record>, taken: seq<DiscardedEvent>, records: seq<Record>)
    requires Accounts(outcomes, recorded, taken)
    ensures Accounts(RecordedAll(outcomes, records), recorded + records, taken)
  {
    forall key: OutcomeKey
      ensures Positive(RecordedAll(outcomes, records))
      ensures Quantity(taken, key) + Pending(RecordedAll(outcomes, records), key) == Amount(recorded + records, key)
    {
      RecordedAllPending(outcomes, records, key);
      AmountConcat(recorded, records, key);
    }
    RecordedAllPending(outcomes, records, OutcomeKey(SendError, CategoryAll));
  }

  lemma TakeKeepsAccounts(outcomes: Counters, recorded: seq<Record>, taken: seq<DiscardedEvent>,
    events: seq<DiscardedEvent>)
    requires Accounts(outcomes, recorded, taken) && Reports(events, outcomes)
    ensures Accounts(map[], recorded, taken + events)
  {
    forall key: OutcomeKey
      ensures Quantity(taken + events, key) + Pending(map[], key) == Amount(recorded, key)
    {
      ReportQuantity(events, outcomes, key);
      QuantityConcat(taken, events, key);
    }
  }

  /** In every run, for every key: what reports took and what is pending is what was recorded. */
  lemma {:induction false} NothingLost(ls: seq<Ledger>, ops: seq<Op>, i: nat)
    requires IsRun(ls, ops) && i < |ls|
    ensures Accounts(ls[i].outcomes, ls[i].recorded, ls[i].taken)
  {
    if i > 0 {
      var l := ls[i - 1];
      NothingLost(ls, ops, i - 1);
      assert Legal(l, ops[i - 1]) && ls[i] == Do(l, ops[i - 1]);
      match ops[i - 1] {
        case RecordOp(records) => RecordKeepsAccounts(l.outcomes, l.recorded, l.taken, records);
        case TakeOp(events) => TakeKeepsAccounts(l.outcomes, l.recorded, l.taken, events);
      }
    }
  }
}
