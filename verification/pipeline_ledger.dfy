/** What every step of the telemetry pipeline keeps: no item is lost sight of, and what is
    recorded is what was discarded. */
module PipelineLedgers {
  import opened BufferModels
  import opened Outcomes
  import opened Aggregators
  import opened Pipelines

  // ---------------------------------------------------------------------------
  // Where an item is
  // ---------------------------------------------------------------------------

  function Count(items: seq<Item>, x: Item): nat {
    if items == [] then 0 else (if items[0] == x then 1 else 0) + Count(items[1..], x)
  }

  function InBuffers(buffers: map<Category, Buf>, x: Item): nat {
    if x.category in buffers then Count(buffers[x.category].queue, x) else 0
  }

  function InHands(hands: seq<Hand>, x: Item): nat {
    if hands == [] then 0 else Count(hands[0].items, x) + InHands(hands[1..], x)
  }

  function InQueue(queue: seq<Parcel>, x: Item): nat {
    if queue == [] then 0 else Count(ParcelItems(queue[0]), x) + InQueue(queue[1..], x)
  }

  function InWorker(w: Worker, x: Item): nat {
    if w.Busy? then Count(ParcelItems(w.parcel), x) else 0
  }

  function InDiscarded(ds: seq<Discard>, x: Item): nat {
    if ds == [] then 0 else (if ds[0].item == x then 1 else 0) + InDiscarded(ds[1..], x)
  }

  function InLost(ls: seq<Loss>, x: Item): nat {
    if ls == [] then 0 else (if ls[0].item == x then 1 else 0) + InLost(ls[1..], x)
  }

  /** How often `x` occurs past the buffers. */
  function Beyond(s: State, x: Item): nat {
    InHands(s.hands, x) + InQueue(s.queue, x) + InWorker(s.worker, x) + Count(s.delivered, x)
    + InDiscarded(s.discarded, x) + InLost(s.unrecorded, x)
  }

  /** Every offered item is in exactly one place. */
  predicate PlacedAt(s: State, x: Item) {
    Count(s.offered, x) == InBuffers(s.buffers, x) + Beyond(s, x)
  }

  ghost predicate Placed(s: State) {
    forall x: Item :: PlacedAt(s, x)
  }

  lemma {:induction false} CountConcat(a: seq<Item>, b: seq<Item>, x: Item)
    ensures Count(a + b, x) == Count(a, x) + Count(b, x)
  {
    if a == [] {
      assert a + b == b;
    } else {
      assert (a + b)[1..] == a[1..] + b;
      CountConcat(a[1..], b, x);
    }
  }

  lemma CountSplit(items: seq<Item>, n: nat, x: Item)
    requires n <= |items|
    ensures Count(items, x) == Count(items[..n], x) + Count(items[n..], x)
  {
    assert items == items[..n] + items[n..];
    CountConcat(items[..n], items[n..], x);
  }

  lemma {:induction false} InHandsUpdate(hands: seq<Hand>, h: nat, hand: Hand, x: Item)
    requires h < |hands|
    ensures InHands(hands[h := hand], x) + Count(hands[h].items, x) == InHands(hands, x) + Count(hand.items, x)
  {
    if h > 0 {
      assert hands[h := hand][1..] == hands[1..][h - 1 := hand];
      InHandsUpdate(hands[1..], h - 1, hand, x);
    } else {
      assert hands[h := hand][1..] == hands[1..];
    }
  }

  lemma {:induction false} InHandsAppend(hands: seq<Hand>, hand: Hand, x: Item)
    ensures InHands(hands + [hand], x) == InHands(hands, x) + Count(hand.items, x)
  {
    if hands == [] {
      assert hands + [hand] == [hand];
    } else {
      assert (hands + [hand])[1..] == hands[1..] + [hand];
      InHandsAppend(hands[1..], hand, x);
    }
  }

  lemma {:induction false} InQueueAppend(queue: seq<Parcel>, p: Parcel, x: Item)
    ensures InQueue(queue + [p], x) == InQueue(queue, x) + Count(ParcelItems(p), x)
  {
    if queue == [] {
      assert queue + [p] == [p];
    } else {
      assert (queue + [p])[1..] == queue[1..] + [p];
      InQueueAppend(queue[1..], p, x);
    }
  }

  lemma {:induction false} InDiscardedConcat(a: seq<Discard>, reason: Reason, items: seq<Item>, x: Item)
    ensures InDiscarded(a + Discards(reason, items), x) == InDiscarded(a, x) + Count(items, x)
    decreases |a|, |items|
  {
    if a != [] {
      assert (a + Discards(reason, items))[1..] == a[1..] + Discards(reason, items);
      InDiscardedConcat(a[1..], reason, items, x);
    } else if items != [] {
      assert Discards(reason, items)[1..] == a + Discards(reason, items[1..]);
      assert a + Discards(reason, items) == Discards(reason, items);
      InDiscardedConcat(a, reason, items[1..], x);
    } else {
      assert a + Discards(reason, items) == [];
    }
  }

  lemma {:induction false} InLostConcat(a: seq<Loss>, cause: Cause, items: seq<Item>, x: Item)
    ensures InLost(a + Losses(cause, items), x) == InLost(a, x) + Count(items, x)
    decreases |a|, |items|
  {
    if a != [] {
      assert (a + Losses(cause, items))[1..] == a[1..] + Losses(cause, items);
      InLostConcat(a[1..], cause, items, x);
    } else if items != [] {
      assert Losses(cause, items)[1..] == a + Losses(cause, items[1..]);
      assert a + Losses(cause, items) == Losses(cause, items);
      InLostConcat(a, cause, items[1..], x);
    } else {
      assert a + Losses(cause, items) == [];
    }
  }

  // ---------------------------------------------------------------------------
  // What each part of a step moves
  // ---------------------------------------------------------------------------

  lemma DiscardingBeyond(s: State, reason: Reason, items: seq<Item>, records: seq<Record>, x: Item)
    ensures Beyond(Discarding(s, reason, items, records), x) == Beyond(s, x) + Count(items, x)
  {
    InDiscardedConcat(s.discarded, reason, items, x);
  }

  lemma LosingBeyond(s: State, cause: Cause, items: seq<Item>, x: Item)
    ensures Beyond(Losing(s, cause, items), x) == Beyond(s, x) + Count(items, x)
  {
    InLostConcat(s.unrecorded, cause, items, x);
  }

  lemma ParcelSplit(p: Parcel, x: Item)
    requires ParcelOk(p)
    ensures Count(ParcelItems(p), x) == Count(Reported(p), x) + Count(Unreported(p), x)
  {
    if p.ContainerParcel? {
      CountSplit(p.items, 1, x);
      assert p.items[..1] == [p.items[0]];
    }
  }

  lemma DiscardParcelBeyond(s: State, reason: Reason, p: Parcel, x: Item)
    requires ParcelOk(p)
    ensures Beyond(DiscardParcel(s, reason, p), x) == Beyond(s, x) + Count(ParcelItems(p), x)
  {
    var records := EnvelopeRecords(reason, EnvelopeOf(p));
    DiscardingBeyond(s, reason, Reported(p), records, x);
    LosingBeyond(Discarding(s, reason, Reported(p), records), MetricBatch, Unreported(p), x);
    ParcelSplit(p, x);
  }

  lemma SendEnvelopeBeyond(s: State, p: Parcel, limited: bool, x: Item)
    requires ParcelOk(p)
    ensures Beyond(SendEnvelope(s, p, limited), x) == Beyond(s, x) + Count(ParcelItems(p), x)
  {
    if s.closed {
      LosingBeyond(s, TransportClosed, ParcelItems(p), x);
    } else if limited {
      DiscardParcelBeyond(s, RateLimitBackoff, p, x);
    } else if |s.queue| < s.queueSize {
      InQueueAppend(s.queue, p, x);
    } else {
      DiscardParcelBeyond(s, QueueOverflow, p, x);
    }
  }

  lemma SetHandBeyond(s: State, h: nat, items: seq<Item>, sending: bool, x: Item)
    requires h < |s.hands|
    ensures Beyond(SetHand(s, h, items, sending), x) + Count(s.hands[h].items, x) == Beyond(s, x) + Count(items, x)
  {
    InHandsUpdate(s.hands, h, Hand(s.hands[h].category, items, sending), x);
  }

  /** An offer puts the item in its buffer and takes out what overflows. */
  lemma OfferCount(b: Buf, item: Item, x: Item)
    requires b.capacity > 0 && |b.queue| <= b.capacity
    ensures var o := RingOffer(b.queue, b.capacity, b.policy, item);
      Count(o.state, x) + Count(o.dropped, x) == Count(b.queue, x) + Count([item], x)
  {
    if |b.queue| < b.capacity {
      CountConcat(b.queue, [item], x);
    } else if b.policy.DropOldest? {
      CountSplit(b.queue, 1, x);
      assert b.queue[..1] == [b.queue[0]];
      CountConcat(b.queue[1..], [item], x);
    }
  }

  /** Steps after the buffers: what leaves one place arrives in another. */
  predicate Moved(s: State, s': State, x: Item) {
    s'.offered == s.offered && s'.buffers == s.buffers && Beyond(s', x) == Beyond(s, x)
  }

  lemma AddPlaced(s: State, item: Item, x: Item)
    requires Shape(s) && PlacedAt(s, x)
    ensures PlacedAt(AddStep(s, item), x)
  {
    CountConcat(s.offered, [item], x);
    var s1 := s.(offered := s.offered + [item]);
    if item.category !in s.buffers {
      LosingBeyond(s1, NoBuffer, [item], x);
    } else {
      var b := s.buffers[item.category];
      var o := RingOffer(b.queue, b.capacity, b.policy, item);
      var s2 := s1.(buffers := s.buffers[item.category := b.(queue := o.state)]);
      DiscardingBeyond(s2, BufferOverflow, o.dropped, AllItemRecords(BufferOverflow, o.dropped), x);
      OfferCount(b, item, x);
      CountForeign(o.dropped, x);
    }
  }

  lemma {:induction false} CountForeign(items: seq<Item>, x: Item)
    ensures (forall i :: 0 <= i < |items| ==> items[i].category != x.category) ==> Count(items, x) == 0
  {
    if items != [] {
      CountForeign(items[1..], x);
    }
  }

  lemma PollPlaced(s: State, category: Category, count: nat, x: Item)
    requires Shape(s) && PlacedAt(s, x) && category in s.buffers && count <= |s.buffers[category].queue|
    ensures PlacedAt(PollStep(s, category, count), x)
  {
    var b := s.buffers[category];
    InHandsAppend(s.hands, Hand(category, b.queue[..count], false), x);
    CountSplit(b.queue, count, x);
    CountForeign(b.queue[..count], x);
  }

  lemma DropHandMoved(s: State, h: nat, limited: bool, x: Item)
    requires h < |s.hands|
    ensures Moved(s, DropHandStep(s, h, limited), x)
  {
    var reason := if limited then RateLimitBackoff else QueueOverflow;
    var items := s.hands[h].items;
    SetHandBeyond(s, h, [], false, x);
    DiscardingBeyond(SetHand(s, h, [], false), reason, items, AllItemRecords(reason, items), x);
  }

  lemma SendEnvelopeMoved(s: State, p: Parcel, limited: bool)
    requires ParcelOk(p)
    ensures SendEnvelope(s, p, limited).offered == s.offered && SendEnvelope(s, p, limited).buffers == s.buffers
  {
  }

  lemma SendEventMoved(s: State, h: nat, length: int, limited: bool, x: Item)
    requires h < |s.hands| && s.hands[h].items != [] && IsEventCategory(s.hands[h].items[0].category)
    ensures Moved(s, SendEventStep(s, h, length, limited), x)
  {
    var items := s.hands[h].items;
    var s1 := SetHand(s, h, items[1..], true);
    SetHandBeyond(s, h, items[1..], true, x);
    if items[0].serializable {
      SendEnvelopeBeyond(s1, EventParcel(items[0], length, false), limited, x);
      SendEnvelopeMoved(s1, EventParcel(items[0], length, false), limited);
    } else {
      DiscardingBeyond(s1, InternalError, [items[0]], ItemRecords(InternalError, items[0]), x);
    }
  }

  lemma {:induction false} SerializableCount(items: seq<Item>, x: Item)
    ensures Count(items, x) == Count(Serializable(items), x) + Count(Skipped(items), x)
  {
    if items != [] {
      SerializableCount(items[1..], x);
      CountConcat(if items[0].serializable then [items[0]] else [], Serializable(items[1..]), x);
      CountConcat(if items[0].serializable then [] else [items[0]], Skipped(items[1..]), x);
    }
  }

  lemma SendContainerMoved(s: State, h: nat, length: int, limited: bool, x: Item)
    requires h < |s.hands| && s.hands[h].items != [] && HandOk(s.hands[h])
    requires !IsEventCategory(s.hands[h].category)
    ensures Moved(s, SendContainerStep(s, h, length, limited), x)
  {
    var hand := s.hands[h];
    var s1 := SetHand(s, h, [], true);
    SetHandBeyond(s, h, [], true, x);
    if Serializable(hand.items) == [] {
      var records := [Record(OutcomeKey(InternalError, hand.category), 1)];
      DiscardingBeyond(s1, InternalError, [hand.items[0]], records, x);
      LosingBeyond(Discarding(s1, InternalError, [hand.items[0]], records), Unserialisable, hand.items[1..], x);
    } else {
      ContainerParcelOk(hand);
      SerializableCount(hand.items, x);
      var s2 := Losing(s1, Unserialisable, Skipped(hand.items));
      var p := ContainerParcel(hand.category, Serializable(hand.items), length, false);
      LosingBeyond(s1, Unserialisable, Skipped(hand.items), x);
      SendEnvelopeBeyond(s2, p, limited, x);
      SendEnvelopeMoved(s2, p, limited);
    }
  }

  lemma FinishMoved(s: State, answer: Answer, x: Item)
    requires s.worker.Busy? && ParcelOk(s.worker.parcel)
    ensures Moved(s, FinishStep(s, answer), x)
  {
    var p := s.worker.parcel;
    var s1 := ReportEnds(s.(worker := Idle), s.worker.carried, answer.Taken?);
    match answer {
      case RequestFailed => DiscardParcelBeyond(s1, InternalError, p, x);
      case NetworkFailed => DiscardParcelBeyond(s1, NetworkError, p, x);
      case Refused => DiscardParcelBeyond(s1, SendError, p, x);
      case TooMany => LosingBeyond(s1, TooManyRequests, ParcelItems(p), x);
      case Taken => CountConcat(s.delivered, ParcelItems(p), x);
    }
  }

  lemma {:induction false} QueueItemsCount(queue: seq<Parcel>, x: Item)
    ensures Count(QueueItems(queue), x) == InQueue(queue, x)
  {
    if queue != [] {
      CountConcat(ParcelItems(queue[0]), QueueItems(queue[1..]), x);
      QueueItemsCount(queue[1..], x);
    }
  }

  lemma WorkerStopsMoved(s: State, x: Item)
    requires s.worker.Idle?
    ensures Moved(s, WorkerStopsStep(s), x)
  {
    QueueItemsCount(s.queue, x);
    LosingBeyond(s.(worker := Stopped, queue := []), WorkerStopped, QueueItems(s.queue), x);
  }

  lemma StepPlaced(s: State, l: Label, x: Item)
    requires Shape(s) && PlacedAt(s, x) && Enabled(s, l)
    ensures PlacedAt(Next(s, l), x)
  {
    match l {
      case Add(item) => AddPlaced(s, item, x);
      case Poll(category, count) => PollPlaced(s, category, count, x);
      case DropHand(h, limited) => DropHandMoved(s, h, limited, x);
      case StartSending(h) => SetHandBeyond(s, h, s.hands[h].items, true, x);
      case SendEvent(h, length, limited) =>
        assert HandOk(s.hands[h]);
        SendEventMoved(s, h, length, limited, x);
      case SendContainer(h, length, limited) => SendContainerMoved(s, h, length, limited, x);
      case WorkerLimited => DiscardParcelBeyond(s.(worker := Idle), RateLimitBackoff, s.worker.parcel, x);
      case Finish(answer) => FinishMoved(s, answer, x);
      case WorkerStops => WorkerStopsMoved(s, x);
      case _ =>
    }
  }

  // ---------------------------------------------------------------------------
  // What is recorded
  // ---------------------------------------------------------------------------

  /** The quantity that the discards so far amount to. */
  function DiscardAmount(ds: seq<Discard>, key: OutcomeKey): nat {
    if ds == [] then 0
    else Amount(ItemRecords(ds[0].reason, ds[0].item), key) + DiscardAmount(ds[1..], key)
  }

  /** What has been recorded for `key` is what has been discarded. */
  predicate RecordedAt(s: State, key: OutcomeKey) {
    Amount(s.ledger.recorded, key) == DiscardAmount(s.discarded, key)
  }

  lemma {:induction false} DiscardAmountConcat(a: seq<Discard>, reason: Reason, items: seq<Item>, key: OutcomeKey)
    ensures DiscardAmount(a + Discards(reason, items), key) == DiscardAmount(a, key) + ItemAmount(reason, items, key)
    decreases |a|, |items|
  {
    if a != [] {
      assert (a + Discards(reason, items))[1..] == a[1..] + Discards(reason, items);
      DiscardAmountConcat(a[1..], reason, items, key);
    } else if items != [] {
      assert Discards(reason, items)[1..] == a + Discards(reason, items[1..]);
      assert a + Discards(reason, items) == Discards(reason, items);
      DiscardAmountConcat(a, reason, items[1..], key);
    } else {
      assert a + Discards(reason, items) == [];
    }
  }

  lemma {:induction false} AllItemRecordsAmount(reason: Reason, items: seq<Item>, key: OutcomeKey)
    ensures Amount(AllItemRecords(reason, items), key) == ItemAmount(reason, items, key)
  {
    if items != [] {
      AllItemRecordsAmount(reason, items[1..], key);
      AmountConcat(ItemRecords(reason, items[0]), AllItemRecords(reason, items[1..]), key);
    }
  }

  lemma DiscardingRecorded(s: State, reason: Reason, items: seq<Item>, records: seq<Record>, key: OutcomeKey)
    requires RecordedAt(s, key) && Amount(records, key) == ItemAmount(reason, items, key)
    ensures RecordedAt(Discarding(s, reason, items, records), key)
  {
    DiscardAmountConcat(s.discarded, reason, items, key);
    AmountConcat(s.ledger.recorded, records, key);
  }

  /** The records of an envelope are those of the items that it reports, except for bytes. */
  lemma ParcelRecords(reason: Reason, p: Parcel, key: OutcomeKey)
    requires ParcelOk(p) && !key.category.CategoryLogByte?
    ensures Amount(EnvelopeRecords(reason, EnvelopeOf(p)), key) == ItemAmount(reason, Reported(p), key)
  {
    match p {
      case EventParcel(item, length, _) =>
        EventEnvelopeRecords(reason, item, length, AttachedReport(p), key);
        assert ItemAmount(reason, [item], key) == Amount(ItemRecords(reason, item), key) + ItemAmount(reason, [], key);
      case ContainerParcel(category, items, length, _) =>
        if category.CategoryLog? {
          LogEnvelopeRecords(reason, items, length, AttachedReport(p), key);
        } else {
          MetricEnvelopeRecords(reason, items, length, AttachedReport(p), key);
          ItemAmountIsCount(reason, [items[0]], CategoryTraceMetric, key);
        }
    }
  }

  lemma DiscardParcelRecorded(s: State, reason: Reason, p: Parcel, key: OutcomeKey)
    requires RecordedAt(s, key) && ParcelOk(p) && !key.category.CategoryLogByte?
    ensures RecordedAt(DiscardParcel(s, reason, p), key)
  {
    ParcelRecords(reason, p, key);
    DiscardingRecorded(s, reason, Reported(p), EnvelopeRecords(reason, EnvelopeOf(p)), key);
  }

  lemma SendEnvelopeRecorded(s: State, p: Parcel, limited: bool, key: OutcomeKey)
    requires RecordedAt(s, key) && ParcelOk(p) && !key.category.CategoryLogByte?
    ensures RecordedAt(SendEnvelope(s, p, limited), key)
  {
    if !s.closed && limited {
      DiscardParcelRecorded(s, RateLimitBackoff, p, key);
    } else if !s.closed && |s.queue| >= s.queueSize {
      DiscardParcelRecorded(s, QueueOverflow, p, key);
    }
  }

  lemma OneItemAmount(reason: Reason, item: Item, key: OutcomeKey)
    ensures ItemAmount(reason, [item], key) == Amount(ItemRecords(reason, item), key)
  {
    assert ItemAmount(reason, [item], key) == Amount(ItemRecords(reason, item), key) + ItemAmount(reason, [], key);
  }

  lemma SendEventRecorded(s: State, h: nat, length: int, limited: bool, key: OutcomeKey)
    requires RecordedAt(s, key) && !key.category.CategoryLogByte?
    requires h < |s.hands| && s.hands[h].items != [] && IsEventCategory(s.hands[h].items[0].category)
    ensures RecordedAt(SendEventStep(s, h, length, limited), key)
  {
    var item := s.hands[h].items[0];
    var s1 := SetHand(s, h, s.hands[h].items[1..], true);
    if item.serializable {
      SendEnvelopeRecorded(s1, EventParcel(item, length, false), limited, key);
    } else {
      OneItemAmount(InternalError, item, key);
      DiscardingRecorded(s1, InternalError, [item], ItemRecords(InternalError, item), key);
    }
  }

  lemma SendContainerRecorded(s: State, h: nat, length: int, limited: bool, key: OutcomeKey)
    requires RecordedAt(s, key) && !key.category.CategoryLogByte?
    requires h < |s.hands| && s.hands[h].items != [] && HandOk(s.hands[h]) && !IsEventCategory(s.hands[h].category)
    ensures RecordedAt(SendContainerStep(s, h, length, limited), key)
  {
    var hand := s.hands[h];
    var s1 := SetHand(s, h, [], true);
    if Serializable(hand.items) == [] {
      ItemAmountIsCount(InternalError, [hand.items[0]], hand.category, key);
      var records := [Record(OutcomeKey(InternalError, hand.category), 1)];
      assert Amount(records, key) == Effect(records[0], key) + Amount([], key);
      DiscardingRecorded(s1, InternalError, [hand.items[0]], records, key);
    } else {
      ContainerParcelOk(hand);
      SendEnvelopeRecorded(Losing(s1, Unserialisable, Skipped(hand.items)),
        ContainerParcel(hand.category, Serializable(hand.items), length, false), limited, key);
    }
  }

  lemma FinishRecorded(s: State, answer: Answer, key: OutcomeKey)
    requires RecordedAt(s, key) && !key.category.CategoryLogByte?
    requires s.worker.Busy? && ParcelOk(s.worker.parcel)
    ensures RecordedAt(FinishStep(s, answer), key)
  {
    var s1 := ReportEnds(s.(worker := Idle), s.worker.carried, answer.Taken?);
    match answer {
      case RequestFailed => DiscardParcelRecorded(s1, InternalError, s.worker.parcel, key);
      case NetworkFailed => DiscardParcelRecorded(s1, NetworkError, s.worker.parcel, key);
      case Refused => DiscardParcelRecorded(s1, SendError, s.worker.parcel, key);
      case TooMany =>
      case Taken =>
    }
  }

  lemma AddRecorded(s: State, item: Item, key: OutcomeKey)
    requires Configured(s.buffers) && RecordedAt(s, key)
    ensures RecordedAt(AddStep(s, item), key)
  {
    if item.category in s.buffers {
      var b := s.buffers[item.category];
      var o := RingOffer(b.queue, b.capacity, b.policy, item);
      AllItemRecordsAmount(BufferOverflow, o.dropped, key);
      DiscardingRecorded(
        s.(offered := s.offered + [item], buffers := s.buffers[item.category := b.(queue := o.state)]),
        BufferOverflow, o.dropped, AllItemRecords(BufferOverflow, o.dropped), key);
    }
  }

  lemma StepRecorded(s: State, l: Label, key: OutcomeKey)
    requires Shape(s) && RecordedAt(s, key) && Enabled(s, l) && !key.category.CategoryLogByte?
    ensures RecordedAt(Next(s, l), key)
  {
    match l {
      case Add(item) => AddRecorded(s, item, key);
      case DropHand(h, limited) =>
        var reason := if limited then RateLimitBackoff else QueueOverflow;
        AllItemRecordsAmount(reason, s.hands[h].items, key);
        DiscardingRecorded(SetHand(s, h, [], false), reason, s.hands[h].items,
          AllItemRecords(reason, s.hands[h].items), key);
      case SendEvent(h, length, limited) =>
        assert HandOk(s.hands[h]);
        SendEventRecorded(s, h, length, limited, key);
      case SendContainer(h, length, limited) => SendContainerRecorded(s, h, length, limited, key);
      case WorkerLimited => DiscardParcelRecorded(s.(worker := Idle), RateLimitBackoff, s.worker.parcel, key);
      case Finish(answer) => FinishRecorded(s, answer, key);
      case _ =>
    }
  }
}
