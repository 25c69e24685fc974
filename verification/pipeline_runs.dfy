/** Every run of the telemetry pipeline keeps the account. */
module PipelineRuns {
  import opened BufferModels
  import opened Outcomes
  import opened Aggregators
  import opened Pipelines
  import opened PipelineLedgers

  // ---------------------------------------------------------------------------
  // The counters and the reports
  // ---------------------------------------------------------------------------

  ghost predicate Accounted(s: State) {
    Accounts(s.ledger.outcomes, s.ledger.recorded, s.ledger.taken)
  }

  /** The ledger of `s'` is that of `s` after some records. */
  ghost predicate Records(s: State, s': State) {
    s'.ledger == s.ledger || exists records: seq<Record> :: s'.ledger == Do(s.ledger, RecordOp(records))
  }

  lemma RecordsAccounted(s: State, s': State)
    requires Accounted(s) && Records(s, s')
    ensures Accounted(s')
  {
    if s'.ledger != s.ledger {
      var records: seq<Record> :| s'.ledger == Do(s.ledger, RecordOp(records));
      RecordKeepsAccounts(s.ledger.outcomes, s.ledger.recorded, s.ledger.taken, records);
    }
  }

  lemma SendEnvelopeRecords(s: State, p: Parcel, limited: bool)
    requires ParcelOk(p)
    ensures Records(s, SendEnvelope(s, p, limited))
  {
  }

  lemma SendContainerRecords(s: State, h: nat, length: int, limited: bool)
    requires h < |s.hands| && s.hands[h].items != [] && HandOk(s.hands[h]) && !IsEventCategory(s.hands[h].category)
    ensures Records(s, SendContainerStep(s, h, length, limited))
  {
    var hand := s.hands[h];
    if Serializable(hand.items) != [] {
      ContainerParcelOk(hand);
      SendEnvelopeRecords(Losing(SetHand(s, h, [], true), Unserialisable, Skipped(hand.items)),
        ContainerParcel(hand.category, Serializable(hand.items), length, false), limited);
    }
  }

  lemma SendEventRecords(s: State, h: nat, length: int, limited: bool)
    requires h < |s.hands| && s.hands[h].items != [] && IsEventCategory(s.hands[h].items[0].category)
    ensures Records(s, SendEventStep(s, h, length, limited))
  {
    var item := s.hands[h].items[0];
    if item.serializable {
      SendEnvelopeRecords(SetHand(s, h, s.hands[h].items[1..], true), EventParcel(item, length, false), limited);
    }
  }

  lemma StepAccounted(s: State, l: Label)
    requires Shape(s) && Accounted(s) && Enabled(s, l)
    ensures Accounted(Next(s, l))
  {
    match l {
      case Attach(events, _) => TakeKeepsAccounts(s.ledger.outcomes, s.ledger.recorded, s.ledger.taken, events);
      case ReportTick(events, _) => TakeKeepsAccounts(s.ledger.outcomes, s.ledger.recorded, s.ledger.taken, events);
      case SendEvent(h, length, limited) =>
        assert HandOk(s.hands[h]);
        SendEventRecords(s, h, length, limited);
        RecordsAccounted(s, Next(s, l));
      case SendContainer(h, length, limited) =>
        SendContainerRecords(s, h, length, limited);
        RecordsAccounted(s, Next(s, l));
      case _ => RecordsAccounted(s, Next(s, l));
    }
  }

  // ---------------------------------------------------------------------------
  // Why an item is not recorded
  // ---------------------------------------------------------------------------

  predicate Explained(buffers: map<Category, Buf>, closed: bool, loss: Loss) {
    match loss.cause
    case NoBuffer => loss.item.category !in buffers
    case TransportClosed => closed
    case Unserialisable => !loss.item.serializable
    case MetricBatch => loss.item.category.CategoryTraceMetric?
    case TooManyRequests => loss.item.serializable
    case WorkerStopped => closed
  }

  ghost predicate AllExplained(s: State) {
    forall i :: 0 <= i < |s.unrecorded| ==> Explained(s.buffers, s.closed, s.unrecorded[i])
  }

  lemma {:induction false} LossesAt(cause: Cause, items: seq<Item>)
    ensures |Losses(cause, items)| == |items|
    ensures forall i :: 0 <= i < |items| ==> Losses(cause, items)[i] == Loss(cause, items[i])
  {
    if items != [] {
      LossesAt(cause, items[1..]);
    }
  }

  lemma LosingExplained(s: State, cause: Cause, items: seq<Item>)
    requires AllExplained(s)
    requires forall i :: 0 <= i < |items| ==> Explained(s.buffers, s.closed, Loss(cause, items[i]))
    ensures AllExplained(Losing(s, cause, items))
  {
    LossesAt(cause, items);
  }

  lemma DiscardParcelExplained(s: State, reason: Reason, p: Parcel)
    requires AllExplained(s) && ParcelOk(p)
    ensures AllExplained(DiscardParcel(s, reason, p))
  {
    LosingExplained(Discarding(s, reason, Reported(p), EnvelopeRecords(reason, EnvelopeOf(p))), MetricBatch, Unreported(p));
  }

  lemma SendEnvelopeExplained(s: State, p: Parcel, limited: bool)
    requires AllExplained(s) && ParcelOk(p)
    ensures AllExplained(SendEnvelope(s, p, limited))
  {
    if s.closed {
      LosingExplained(s, TransportClosed, ParcelItems(p));
    } else {
      DiscardParcelExplained(s, RateLimitBackoff, p);
      DiscardParcelExplained(s, QueueOverflow, p);
    }
  }

  lemma {:induction false} SerializableItems(items: seq<Item>)
    ensures forall i :: 0 <= i < |Serializable(items)| ==> Serializable(items)[i].serializable
  {
    if items != [] {
      SerializableItems(items[1..]);
    }
  }

  lemma {:induction false} SkippedItems(items: seq<Item>)
    ensures forall i :: 0 <= i < |Skipped(items)| ==> !Skipped(items)[i].serializable
    ensures Serializable(items) == [] ==> forall i :: 0 <= i < |items| ==> !items[i].serializable
  {
    if items != [] {
      SkippedItems(items[1..]);
      assert items == [items[0]] + items[1..];
    }
  }

  lemma SendContainerExplained(s: State, h: nat, length: int, limited: bool)
    requires AllExplained(s)
    requires h < |s.hands| && s.hands[h].items != [] && HandOk(s.hands[h]) && !IsEventCategory(s.hands[h].category)
    ensures AllExplained(SendContainerStep(s, h, length, limited))
  {
    var hand := s.hands[h];
    var s1 := SetHand(s, h, [], true);
    SkippedItems(hand.items);
    if Serializable(hand.items) == [] {
      LosingExplained(
        Discarding(s1, InternalError, [hand.items[0]], [Record(OutcomeKey(InternalError, hand.category), 1)]),
        Unserialisable, hand.items[1..]);
    } else {
      ContainerParcelOk(hand);
      LosingExplained(s1, Unserialisable, Skipped(hand.items));
      SendEnvelopeExplained(Losing(s1, Unserialisable, Skipped(hand.items)),
        ContainerParcel(hand.category, Serializable(hand.items), length, false), limited);
    }
  }

  lemma SendEventExplained(s: State, h: nat, length: int, limited: bool)
    requires AllExplained(s)
    requires h < |s.hands| && s.hands[h].items != [] && IsEventCategory(s.hands[h].items[0].category)
    ensures AllExplained(SendEventStep(s, h, length, limited))
  {
    var item := s.hands[h].items[0];
    if item.serializable {
      SendEnvelopeExplained(SetHand(s, h, s.hands[h].items[1..], true), EventParcel(item, length, false), limited);
    }
  }

  lemma AddExplained(s: State, item: Item)
    requires Configured(s.buffers) && AllExplained(s)
    ensures AllExplained(AddStep(s, item))
  {
    if item.category !in s.buffers {
      LosingExplained(s.(offered := s.offered + [item]), NoBuffer, [item]);
    }
  }

  lemma ParcelSerializable(p: Parcel)
    requires ParcelOk(p)
    ensures forall i :: 0 <= i < |ParcelItems(p)| ==> ParcelItems(p)[i].serializable
  {
    if p.ContainerParcel? {
      SerializableItems(p.items);
    }
  }

  lemma WorkerExplained(s: State, l: Label)
    requires Shape(s) && AllExplained(s) && Enabled(s, l) && (l.WorkerLimited? || l.Finish?)
    ensures AllExplained(Next(s, l))
  {
    var s1, p := s.(worker := Idle), s.worker.parcel;
    if l.WorkerLimited? {
      DiscardParcelExplained(s1, RateLimitBackoff, p);
    } else {
      var s2 := ReportEnds(s1, s.worker.carried, l.answer.Taken?);
      match l.answer {
        case RequestFailed => DiscardParcelExplained(s2, InternalError, p);
        case NetworkFailed => DiscardParcelExplained(s2, NetworkError, p);
        case Refused => DiscardParcelExplained(s2, SendError, p);
        case TooMany =>
          ParcelSerializable(p);
          LosingExplained(s2, TooManyRequests, ParcelItems(p));
        case Taken =>
      }
    }
  }

  lemma StepExplained(s: State, l: Label)
    requires Shape(s) && AllExplained(s) && Enabled(s, l)
    ensures AllExplained(Next(s, l))
  {
    match l {
      case Add(item) => AddExplained(s, item);
      case SendEvent(h, length, limited) =>
        assert HandOk(s.hands[h]);
        SendEventExplained(s, h, length, limited);
      case SendContainer(h, length, limited) => SendContainerExplained(s, h, length, limited);
      case WorkerLimited => WorkerExplained(s, l);
      case Finish(_) => WorkerExplained(s, l);
      case WorkerStops =>
        LosingExplained(s.(worker := Stopped, queue := []), WorkerStopped, QueueItems(s.queue));
      case _ =>
    }
  }

  // ---------------------------------------------------------------------------
  // Shape
  // ---------------------------------------------------------------------------

  lemma SendEnvelopeShape(s: State, p: Parcel, limited: bool)
    requires Shape(s) && ParcelOk(p)
    ensures Shape(SendEnvelope(s, p, limited))
  {
  }

  lemma SetHandShape(s: State, h: nat, items: seq<Item>, sending: bool)
    requires Shape(s) && h < |s.hands|
    requires items == [] || items == s.hands[h].items || (s.hands[h].items != [] && items == s.hands[h].items[1..])
    ensures Shape(SetHand(s, h, items, sending))
  {
    assert HandOk(s.hands[h]);
  }

  lemma AddShape(s: State, item: Item)
    requires Shape(s)
    ensures Shape(AddStep(s, item))
  {
    if item.category in s.buffers {
      var b := s.buffers[item.category];
      var o := RingOffer(b.queue, b.capacity, b.policy, item);
      assert forall i :: 0 <= i < |o.state| ==> o.state[i].category == item.category;
    }
  }

  lemma PollShape(s: State, category: Category, count: nat)
    requires Shape(s) && category in s.buffers && count <= |s.buffers[category].queue|
    ensures Shape(PollStep(s, category, count))
  {
  }

  lemma SendContainerShape(s: State, h: nat, length: int, limited: bool)
    requires Shape(s) && h < |s.hands| && s.hands[h].items != [] && !IsEventCategory(s.hands[h].category)
    ensures Shape(SendContainerStep(s, h, length, limited))
  {
    var hand := s.hands[h];
    assert HandOk(hand);
    SetHandShape(s, h, [], true);
    if Serializable(hand.items) != [] {
      ContainerParcelOk(hand);
      SendEnvelopeShape(Losing(SetHand(s, h, [], true), Unserialisable, Skipped(hand.items)),
        ContainerParcel(hand.category, Serializable(hand.items), length, false), limited);
    }
  }

  lemma SendEventShape(s: State, h: nat, length: int, limited: bool)
    requires Shape(s) && h < |s.hands| && s.hands[h].items != [] && IsEventCategory(s.hands[h].category)
    ensures Shape(SendEventStep(s, h, length, limited))
  {
    assert HandOk(s.hands[h]);
    var item := s.hands[h].items[0];
    SetHandShape(s, h, s.hands[h].items[1..], true);
    if item.serializable {
      SendEnvelopeShape(SetHand(s, h, s.hands[h].items[1..], true), EventParcel(item, length, false), limited);
    }
  }

  lemma StepShape(s: State, l: Label)
    requires Shape(s) && Enabled(s, l)
    ensures Shape(Next(s, l))
  {
    match l {
      case Add(item) => AddShape(s, item);
      case Poll(category, count) => PollShape(s, category, count);
      case DropHand(h, limited) => SetHandShape(s, h, [], false);
      case StartSending(h) => SetHandShape(s, h, s.hands[h].items, true);
      case SendEvent(h, length, limited) => SendEventShape(s, h, length, limited);
      case SendContainer(h, length, limited) => SendContainerShape(s, h, length, limited);
      case _ =>
    }
  }

  // ---------------------------------------------------------------------------
  // Runs
  // ---------------------------------------------------------------------------

  ghost predicate Initial(s: State) {
    && Configured(s.buffers) && (forall c :: c in s.buffers ==> s.buffers[c].queue == [])
    && s.hands == [] && s.queue == [] && s.worker == Idle && !s.closed
    && s.ledger == Ledger(map[], [], [])
    && s.offered == [] && s.delivered == [] && s.discarded == [] && s.unrecorded == []
    && s.received == [] && s.gone == []
  }

  /** By StepShape every state of a run has the shape that Next asks for. */
  ghost predicate StepAt(ss: seq<State>, ls: seq<Label>, i: nat) {
    i < |ls| < |ss| && (Shape(ss[i]) ==> Enabled(ss[i], ls[i]) && ss[i + 1] == Next(ss[i], ls[i]))
  }

  ghost predicate IsRun(ss: seq<State>, ls: seq<Label>) {
    && |ss| == |ls| + 1 && Initial(ss[0])
    && forall i :: 0 <= i < |ls| ==> StepAt(ss, ls, i)
  }

  ghost predicate Inv(s: State) {
    && Shape(s) && Placed(s) && Accounted(s) && AllExplained(s)
    && forall key: OutcomeKey :: !key.category.CategoryLogByte? ==> RecordedAt(s, key)
  }

  lemma StepInv(s: State, l: Label)
    requires Inv(s) && Enabled(s, l)
    ensures Inv(Next(s, l))
  {
    StepShape(s, l);
    StepAccounted(s, l);
    StepExplained(s, l);
    forall x: Item
      ensures PlacedAt(Next(s, l), x)
    {
      StepPlaced(s, l, x);
    }
    forall key: OutcomeKey | !key.category.CategoryLogByte?
      ensures RecordedAt(Next(s, l), key)
    {
      StepRecorded(s, l, key);
    }
  }

  lemma InitialInv(s: State)
    requires Initial(s)
    ensures Inv(s)
  {
  }

  lemma {:induction false} RunInv(ss: seq<State>, ls: seq<Label>, i: nat)
    requires IsRun(ss, ls) && i < |ss|
    ensures Inv(ss[i])
  {
    if i == 0 {
      InitialInv(ss[0]);
    } else {
      RunInv(ss, ls, i - 1);
      assert StepAt(ss, ls, i - 1);
      StepInv(ss[i - 1], ls[i - 1]);
    }
  }

  /** A run goes on with any step that is enabled. */
  lemma Extend(ss: seq<State>, ls: seq<Label>, l: Label) returns (ss': seq<State>, ls': seq<Label>)
    requires IsRun(ss, ls) && Enabled(ss[|ls|], l)
    ensures Shape(ss[|ls|])
    ensures IsRun(ss', ls') && ls' == ls + [l] && |ls'| == |ls| + 1 && ss'[0] == ss[0]
    ensures ss'[|ls'|] == Next(ss[|ls|], l)
  {
    RunInv(ss, ls, |ls|);
    ss', ls' := ss + [Next(ss[|ls|], l)], ls + [l];
    forall i | 0 <= i < |ls'|
      ensures StepAt(ss', ls', i)
    {
      if i < |ls| {
        assert StepAt(ss, ls, i);
      }
    }
  }

  /** Some run leads to the state. */
  ghost predicate Reachable(s: State) {
    exists ss, ls :: IsRun(ss, ls) && ss[|ls|] == s
  }

  lemma InitialReachable(s: State)
    requires Initial(s)
    ensures Reachable(s) && Shape(s)
  {
    var ls: seq<Label> := [];
    assert IsRun([s], ls) && [s][|ls|] == s;
  }

  lemma StepReachable(s: State, l: Label)
    requires Reachable(s) && Shape(s) && Enabled(s, l)
    ensures Reachable(Next(s, l)) && Shape(Next(s, l))
  {
    var ss, ls :| IsRun(ss, ls) && ss[|ls|] == s;
    var ss', ls' := Extend(ss, ls, l);
    StepShape(s, l);
  }

  /** How many items of a category have been discarded for a reason. */
  function DiscardCount(ds: seq<Discard>, key: OutcomeKey): nat {
    if ds == [] then 0
    else (if OutcomeKey(ds[0].reason, ds[0].item.category) == key then 1 else 0) + DiscardCount(ds[1..], key)
  }

  lemma {:induction false} DiscardAmountIsCount(ds: seq<Discard>, key: OutcomeKey)
    requires !key.category.CategorySpan? && !key.category.CategoryLogByte?
    ensures DiscardAmount(ds, key) == DiscardCount(ds, key)
  {
    if ds != [] {
      DiscardAmountIsCount(ds[1..], key);
      var records := ItemRecords(ds[0].reason, ds[0].item);
      assert Amount(records, key) == Effect(records[0], key) + Amount(records[1..], key);
      assert Amount(records[1..], key) == 0 by {
        if |records| > 1 {
          assert Amount(records[1..], key) == Effect(records[1], key) + Amount(records[1..][1..], key);
        }
      }
    }
  }

  /** The ledger: every offered item is in a buffer, in a call that processes it, queued, being
      sent, delivered, discarded, or lost for a cause that holds; and for every reason and every
      category of items, what reports took and what is pending is the number of discarded items. */
  lemma EndToEnd(ss: seq<State>, ls: seq<Label>, i: nat, x: Item, key: OutcomeKey)
    requires IsRun(ss, ls) && i < |ss|
    requires IsItemCategory(key.category)
    ensures var s := ss[i];
      && Count(s.offered, x) == InBuffers(s.buffers, x) + InHands(s.hands, x) + InQueue(s.queue, x)
           + InWorker(s.worker, x) + Count(s.delivered, x) + InDiscarded(s.discarded, x) + InLost(s.unrecorded, x)
      && Quantity(s.ledger.taken, key) + Pending(s.ledger.outcomes, key) == DiscardCount(s.discarded, key)
      && AllExplained(s)
  {
    RunInv(ss, ls, i);
    assert PlacedAt(ss[i], x);
    assert RecordedAt(ss[i], key);
    DiscardAmountIsCount(ss[i].discarded, key);
  }

  /** The spans of the transactions that have been discarded for a reason. */
  function DiscardedSpans(ds: seq<Discard>, reason: Reason): nat {
    if ds == [] then 0
    else
      (if ds[0].reason == reason && ds[0].item.category.CategoryTransaction? && ds[0].item.spans > 0
       then ds[0].item.spans else 0) + DiscardedSpans(ds[1..], reason)
  }

  lemma SpanRecords(reason: Reason, item: Item, r: Reason)
    requires !item.category.CategorySpan?
    ensures Amount(ItemRecords(reason, item), OutcomeKey(r, CategorySpan)) ==
      if reason == r && item.category.CategoryTransaction? && item.spans > 0 then item.spans else 0
  {
    var records, key := ItemRecords(reason, item), OutcomeKey(r, CategorySpan);
    assert Amount(records, key) == Effect(records[0], key) + Amount(records[1..], key);
    if |records| > 1 {
      assert Amount(records[1..], key) == Effect(records[1], key) + Amount(records[1..][1..], key);
    }
  }

  lemma {:induction false} DiscardAmountIsSpans(ds: seq<Discard>, reason: Reason)
    requires forall i :: 0 <= i < |ds| ==> !ds[i].item.category.CategorySpan?
    ensures DiscardAmount(ds, OutcomeKey(reason, CategorySpan)) == DiscardedSpans(ds, reason)
  {
    if ds != [] {
      SpanRecords(ds[0].reason, ds[0].item, reason);
      DiscardAmountIsSpans(ds[1..], reason);
    }
  }

  lemma {:induction false} InDiscardedAt(ds: seq<Discard>, i: nat)
    requires i < |ds|
    ensures InDiscarded(ds, ds[i].item) > 0
  {
    if i > 0 {
      InDiscardedAt(ds[1..], i - 1);
    }
  }

  /** For every reason, the spans in taken reports and pending are those of the discarded transactions. */
  lemma SpanLedger(ss: seq<State>, ls: seq<Label>, i: nat, reason: Reason)
    requires IsRun(ss, ls) && i < |ss|
    requires forall k :: 0 <= k < |ss[i].offered| ==> IsItemCategory(ss[i].offered[k].category)
    ensures var s, key := ss[i], OutcomeKey(reason, CategorySpan);
      Quantity(s.ledger.taken, key) + Pending(s.ledger.outcomes, key) == DiscardedSpans(s.discarded, reason)
  {
    RunInv(ss, ls, i);
    var s := ss[i];
    assert RecordedAt(s, OutcomeKey(reason, CategorySpan));
    forall k | 0 <= k < |s.discarded|
      ensures !s.discarded[k].item.category.CategorySpan?
    {
      var x := s.discarded[k].item;
      InDiscardedAt(s.discarded, k);
      assert PlacedAt(s, x);
      CountMember(s.offered, x);
    }
    DiscardAmountIsSpans(s.discarded, reason);
  }

  lemma {:induction false} CountMember(items: seq<Item>, x: Item)
    requires Count(items, x) > 0
    ensures x in items
  {
    if items[0] != x {
      CountMember(items[1..], x);
    }
  }
}
