/** Under which reason items are discarded, and which are delivered: for every run, from the steps
    that were taken and the state they were taken in. */
module PipelineReasons {
  import opened BufferModels
  import opened Outcomes
  import opened Aggregators
  import opened Pipelines
  import opened PipelineLedgers
  import opened PipelineRuns
  import opened PipelineLosses

  /** The items that were discarded for a reason, oldest first. */
  function Under(ds: seq<Discard>, r: Reason): seq<Item> {
    if ds == [] then [] else (if ds[0].reason == r then [ds[0].item] else []) + Under(ds[1..], r)
  }

  lemma {:induction false} UnderDiscards(reason: Reason, items: seq<Item>, r: Reason)
    ensures Under(Discards(reason, items), r) == if reason == r then items else []
  {
    if items != [] {
      assert Discards(reason, items)[1..] == Discards(reason, items[1..]);
      UnderDiscards(reason, items[1..], r);
    }
  }

  lemma {:induction false} UnderConcat(a: seq<Discard>, b: seq<Discard>, r: Reason)
    ensures Under(a + b, r) == Under(a, r) + Under(b, r)
  {
    if a == [] {
      assert a + b == b;
    } else {
      assert (a + b)[1..] == a[1..] + b;
      UnderConcat(a[1..], b, r);
    }
  }

  // ---------------------------------------------------------------------------
  // What each branch records, and under which reason
  // ---------------------------------------------------------------------------

  /** Of a batch of metrics only one is recorded. */
  function Charged(category: Category, items: seq<Item>): seq<Item> {
    if category.CategoryTraceMetric? && items != [] then [items[0]] else items
  }

  function ParcelCharged(p: Parcel): seq<Item> {
    if p.EventParcel? then [p.item] else Charged(p.category, p.items)
  }

  /** What the step hands to the transport, if it does, as far as it would be recorded. */
  function Submitted(s: State, l: Label): seq<Item> {
    match l
    case SendEvent(h, _, _) =>
      if h < |s.hands| && s.hands[h].items != [] && s.hands[h].items[0].serializable then [s.hands[h].items[0]] else []
    case SendContainer(h, _, _) =>
      if h < |s.hands| then Charged(s.hands[h].category, Serializable(s.hands[h].items)) else []
    case _ => []
  }

  predicate LimitedSend(l: Label) {
    (l.SendEvent? && l.limited) || (l.SendContainer? && l.limited)
  }

  /** Nothing in the batch, or not the event, can be serialised: one item is recorded. */
  function Unsendable(s: State, l: Label): seq<Item> {
    match l
    case SendEvent(h, _, _) =>
      if h < |s.hands| && s.hands[h].items != [] && !s.hands[h].items[0].serializable then [s.hands[h].items[0]] else []
    case SendContainer(h, _, _) =>
      if h < |s.hands| && s.hands[h].items != [] && !AnySerializable(s.hands[h].items) then [s.hands[h].items[0]] else []
    case _ => []
  }

  /** What an offer to a full buffer costs. */
  function Overflowing(s: State, item: Item): seq<Item> {
    if item.category !in s.buffers then []
    else
      var b := s.buffers[item.category];
      if |b.queue| < b.capacity || b.queue == [] then []
      else if b.policy.DropOldest? then [b.queue[0]] else [item]
  }

  function WorkerCharged(s: State): seq<Item> {
    if s.worker.Busy? then ParcelCharged(s.worker.parcel) else []
  }

  function DroppedHand(s: State, l: Label, limited: bool): seq<Item> {
    if l.DropHand? && l.hand < |s.hands| && l.limited == limited then s.hands[l.hand].items else []
  }

  /** The items that the step discards for the reason. */
  function ReasonItems(s: State, l: Label, r: Reason): seq<Item> {
    match r
    case NetworkError => if l == Finish(NetworkFailed) then WorkerCharged(s) else []
    case SendError => if l == Finish(Refused) then WorkerCharged(s) else []
    case InternalError => if l == Finish(RequestFailed) then WorkerCharged(s) else Unsendable(s, l)
    case RateLimitBackoff =>
      if l.WorkerLimited? then WorkerCharged(s)
      else if LimitedSend(l) && !s.closed then Submitted(s, l)
      else DroppedHand(s, l, true)
    case QueueOverflow =>
      if !LimitedSend(l) && !s.closed && |s.queue| >= s.queueSize && Submitted(s, l) != [] then Submitted(s, l)
      else DroppedHand(s, l, false)
    case BufferOverflow => if l.Add? then Overflowing(s, l.item) else []
    case _ => []
  }

  /** Between the states exactly `items` have been discarded for the reason. */
  predicate DiscardsFor(s: State, s': State, r: Reason, items: seq<Item>) {
    Under(s'.discarded, r) == Under(s.discarded, r) + items
  }

  lemma DiscardingFor(s: State, reason: Reason, items: seq<Item>, records: seq<Record>, r: Reason)
    ensures DiscardsFor(s, Discarding(s, reason, items, records), r, if reason == r then items else [])
  {
    UnderConcat(s.discarded, Discards(reason, items), r);
    UnderDiscards(reason, items, r);
  }

  lemma ParcelReported(p: Parcel)
    requires ParcelOk(p)
    ensures Reported(p) == ParcelCharged(p)
  {
  }

  lemma DiscardParcelFor(s: State, reason: Reason, p: Parcel, r: Reason)
    requires ParcelOk(p)
    ensures DiscardsFor(s, DiscardParcel(s, reason, p), r, if reason == r then ParcelCharged(p) else [])
  {
    ParcelReported(p);
    DiscardingFor(s, reason, Reported(p), EnvelopeRecords(reason, EnvelopeOf(p)), r);
  }

  lemma SendEnvelopeFor(s: State, p: Parcel, limited: bool, r: Reason)
    requires ParcelOk(p)
    ensures DiscardsFor(s, SendEnvelope(s, p, limited), r,
              if s.closed then [] else if limited then (if r.RateLimitBackoff? then ParcelCharged(p) else [])
              else if |s.queue| >= s.queueSize && r.QueueOverflow? then ParcelCharged(p) else [])
  {
    DiscardParcelFor(s, RateLimitBackoff, p, r);
    DiscardParcelFor(s, QueueOverflow, p, r);
    assert Under(s.discarded, r) + [] == Under(s.discarded, r);
  }

  lemma SendEventFor(s: State, h: nat, length: int, limited: bool, r: Reason)
    requires Shape(s) && Enabled(s, SendEvent(h, length, limited))
    ensures DiscardsFor(s, Next(s, SendEvent(h, length, limited)), r, ReasonItems(s, SendEvent(h, length, limited), r))
  {
    assert HandOk(s.hands[h]);
    var item := s.hands[h].items[0];
    var s1 := SetHand(s, h, s.hands[h].items[1..], true);
    if item.serializable {
      SendEnvelopeFor(s1, EventParcel(item, length, false), limited, r);
    } else {
      DiscardingFor(s1, InternalError, [item], ItemRecords(InternalError, item), r);
    }
  }

  lemma NothingSerialisableFor(s: State, h: nat, length: int, limited: bool, r: Reason)
    requires Shape(s) && Enabled(s, SendContainer(h, length, limited)) && Serializable(s.hands[h].items) == []
    ensures DiscardsFor(s, Next(s, SendContainer(h, length, limited)), r,
              if r.InternalError? then [s.hands[h].items[0]] else [])
  {
    var hand := s.hands[h];
    assert HandOk(hand);
    DiscardingFor(SetHand(s, h, [], true), InternalError, [hand.items[0]],
      [Record(OutcomeKey(InternalError, hand.category), 1)], r);
  }

  lemma ContainerSentFor(s: State, h: nat, length: int, limited: bool, r: Reason)
    requires Shape(s) && Enabled(s, SendContainer(h, length, limited)) && Serializable(s.hands[h].items) != []
    ensures DiscardsFor(s, Next(s, SendContainer(h, length, limited)), r,
              if s.closed then []
              else if limited then (if r.RateLimitBackoff? then Submitted(s, SendContainer(h, length, limited)) else [])
              else if |s.queue| >= s.queueSize && r.QueueOverflow? then Submitted(s, SendContainer(h, length, limited))
              else [])
  {
    var hand := s.hands[h];
    assert HandOk(hand);
    ContainerParcelOk(hand);
    SendEnvelopeFor(Losing(SetHand(s, h, [], true), Unserialisable, Skipped(hand.items)),
      ContainerParcel(hand.category, Serializable(hand.items), length, false), limited, r);
  }

  lemma SendContainerFor(s: State, h: nat, length: int, limited: bool, r: Reason)
    requires Shape(s) && Enabled(s, SendContainer(h, length, limited))
    ensures DiscardsFor(s, Next(s, SendContainer(h, length, limited)), r, ReasonItems(s, SendContainer(h, length, limited), r))
  {
    SerializableAny(s.hands[h].items);
    if Serializable(s.hands[h].items) == [] {
      NothingSerialisableFor(s, h, length, limited, r);
    } else {
      ContainerSentFor(s, h, length, limited, r);
    }
  }

  lemma DropHandFor(s: State, h: nat, limited: bool, r: Reason)
    requires h < |s.hands|
    ensures DiscardsFor(s, DropHandStep(s, h, limited), r, ReasonItems(s, DropHand(h, limited), r))
  {
    var reason := if limited then RateLimitBackoff else QueueOverflow;
    DiscardingFor(SetHand(s, h, [], false), reason, s.hands[h].items, AllItemRecords(reason, s.hands[h].items), r);
  }

  lemma FinishFor(s: State, answer: Answer, r: Reason)
    requires Shape(s) && Enabled(s, Finish(answer))
    ensures DiscardsFor(s, FinishStep(s, answer), r, ReasonItems(s, Finish(answer), r))
  {
    var s1, p := ReportEnds(s.(worker := Idle), s.worker.carried, answer.Taken?), s.worker.parcel;
    match answer {
      case RequestFailed => DiscardParcelFor(s1, InternalError, p, r);
      case NetworkFailed => DiscardParcelFor(s1, NetworkError, p, r);
      case Refused => DiscardParcelFor(s1, SendError, p, r);
      case TooMany =>
      case Taken =>
    }
  }

  lemma AddFor(s: State, item: Item, r: Reason)
    requires Shape(s)
    ensures DiscardsFor(s, AddStep(s, item), r, ReasonItems(s, Add(item), r))
  {
    if item.category in s.buffers {
      var b := s.buffers[item.category];
      var o := RingOffer(b.queue, b.capacity, b.policy, item);
      var s1 := s.(offered := s.offered + [item], buffers := s.buffers[item.category := b.(queue := o.state)]);
      DiscardingFor(s1, BufferOverflow, o.dropped, AllItemRecords(BufferOverflow, o.dropped), r);
    }
  }

  /** A step discards for each reason exactly the items that the branch for it says. */
  lemma StepReasons(s: State, l: Label, r: Reason)
    requires Shape(s) && Enabled(s, l)
    ensures DiscardsFor(s, Next(s, l), r, ReasonItems(s, l, r))
  {
    match l {
      case Add(item) => AddFor(s, item, r);
      case DropHand(h, limited) => DropHandFor(s, h, limited, r);
      case SendEvent(h, length, limited) => SendEventFor(s, h, length, limited, r);
      case SendContainer(h, length, limited) => SendContainerFor(s, h, length, limited, r);
      case WorkerLimited => DiscardParcelFor(s.(worker := Idle), RateLimitBackoff, s.worker.parcel, r);
      case Finish(answer) => FinishFor(s, answer, r);
      case _ =>
    }
  }

  // ---------------------------------------------------------------------------
  // Every run
  // ---------------------------------------------------------------------------

  /** What the first `i` steps of a run discard for the reason. */
  function AllReasonItems(ss: seq<State>, ls: seq<Label>, i: nat, r: Reason): seq<Item>
    requires i <= |ls| < |ss|
  {
    if i == 0 then [] else AllReasonItems(ss, ls, i - 1, r) + ReasonItems(ss[i - 1], ls[i - 1], r)
  }

  /** In every run the items that have been discarded for a reason are exactly those of the steps
      that discard for it, in order. */
  lemma {:induction false} ReasonsExact(ss: seq<State>, ls: seq<Label>, i: nat, r: Reason)
    requires PipelineRuns.IsRun(ss, ls) && i < |ss|
    ensures Under(ss[i].discarded, r) == AllReasonItems(ss, ls, i, r)
  {
    if i > 0 {
      ReasonsExact(ss, ls, i - 1, r);
      RunInv(ss, ls, i - 1);
      assert StepAt(ss, ls, i - 1);
      StepReasons(ss[i - 1], ls[i - 1], r);
    }
  }

  /** How many of the items are of a category. */
  function CategoryCount(items: seq<Item>, c: Category): nat {
    if items == [] then 0 else (if items[0].category == c then 1 else 0) + CategoryCount(items[1..], c)
  }

  lemma {:induction false} DiscardCountUnder(ds: seq<Discard>, key: OutcomeKey)
    ensures DiscardCount(ds, key) == CategoryCount(Under(ds, key.reason), key.category)
  {
    if ds != [] {
      DiscardCountUnder(ds[1..], key);
      if ds[0].reason == key.reason {
        assert Under(ds, key.reason)[1..] == Under(ds[1..], key.reason);
      } else {
        assert Under(ds, key.reason) == Under(ds[1..], key.reason);
      }
    }
  }

  /** So for every reason and every category of items, what reports took and what is pending is the
      number of items of that category in the steps that discard for that reason. */
  lemma ReportsExact(ss: seq<State>, ls: seq<Label>, i: nat, key: OutcomeKey)
    requires PipelineRuns.IsRun(ss, ls) && i < |ss| && IsItemCategory(key.category)
    ensures Quantity(ss[i].ledger.taken, key) + Pending(ss[i].ledger.outcomes, key)
            == CategoryCount(AllReasonItems(ss, ls, i, key.reason), key.category)
  {
    EndToEnd(ss, ls, i, Item(0, CategoryError, 0, 0, true, 0), key);
    ReasonsExact(ss, ls, i, key.reason);
    DiscardCountUnder(ss[i].discarded, key);
  }

  /** What a step delivers: the envelope that the server has taken. */
  function DeliveredItems(s: State, l: Label): seq<Item> {
    if l == Finish(Taken) && s.worker.Busy? then ParcelItems(s.worker.parcel) else []
  }

  function AllDeliveredItems(ss: seq<State>, ls: seq<Label>, i: nat): seq<Item>
    requires i <= |ls| < |ss|
  {
    if i == 0 then [] else AllDeliveredItems(ss, ls, i - 1) + DeliveredItems(ss[i - 1], ls[i - 1])
  }

  lemma StepDelivers(s: State, l: Label)
    requires Shape(s) && Enabled(s, l)
    ensures Next(s, l).delivered == s.delivered + DeliveredItems(s, l)
  {
    match l {
      case SendEvent(h, length, limited) =>
        assert HandOk(s.hands[h]);
      case SendContainer(h, length, limited) =>
        if Serializable(s.hands[h].items) != [] {
          ContainerParcelOk(s.hands[h]);
        }
      case _ =>
    }
  }

  /** In every run exactly the items of the envelopes that the server took are delivered, in order. */
  lemma {:induction false} DeliveredExact(ss: seq<State>, ls: seq<Label>, i: nat)
    requires PipelineRuns.IsRun(ss, ls) && i < |ss|
    ensures ss[i].delivered == AllDeliveredItems(ss, ls, i)
  {
    if i > 0 {
      DeliveredExact(ss, ls, i - 1);
      RunInv(ss, ls, i - 1);
      assert StepAt(ss, ls, i - 1);
      StepDelivers(ss[i - 1], ls[i - 1]);
    }
  }

  /** Buffers and queue are worked off from the front, and added to at the end. */
  lemma StepInOrder(ss: seq<State>, ls: seq<Label>, j: nat)
    requires PipelineRuns.IsRun(ss, ls) && j < |ls|
    ensures var s, s', l := ss[j], ss[j + 1], ls[j];
      && (l.Poll? ==>
            && l.category in s.buffers && l.category in s'.buffers && |s'.hands| == |s.hands| + 1
            && s.buffers[l.category].queue == s'.hands[|s.hands|].items + s'.buffers[l.category].queue)
      && (l.Dequeue? ==> s'.worker.Busy? && s.queue == [s'.worker.parcel] + s'.queue)
      && (!l.Dequeue? && !l.WorkerStops? ==> s.queue <= s'.queue && |s'.queue| <= |s.queue| + 1)
  {
    RunInv(ss, ls, j);
    assert StepAt(ss, ls, j);
    StepQueues(ss[j], ls[j]);
  }

  lemma StepQueues(s: State, l: Label)
    requires Shape(s) && Enabled(s, l)
    ensures !l.Dequeue? && !l.WorkerStops? ==> s.queue <= Next(s, l).queue && |Next(s, l).queue| <= |s.queue| + 1
  {
    match l {
      case SendEvent(h, length, limited) =>
        assert HandOk(s.hands[h]);
      case SendContainer(h, length, limited) =>
        if Serializable(s.hands[h].items) != [] {
          ContainerParcelOk(s.hands[h]);
        }
      case _ =>
    }
  }
}
