/** When the account of the telemetry pipeline does not come out even: exactly the steps that lose
    items without a record, exactly the steps that lose client reports, and runs with such steps. */
module PipelineLosses {
  import opened BufferModels
  import opened Outcomes
  import opened Aggregators
  import opened Pipelines
  import opened PipelineLedgers
  import opened PipelineRuns

  // ---------------------------------------------------------------------------
  // The steps that lose items
  // ---------------------------------------------------------------------------

  predicate AnySerializable(items: seq<Item>) {
    exists i :: 0 <= i < |items| && items[i].serializable
  }

  predicate AllSerializable(items: seq<Item>) {
    forall i :: 0 <= i < |items| ==> items[i].serializable
  }

  /** The step hands an envelope to the transport. */
  predicate Sends(s: State, l: Label) {
    match l
    case SendEvent(h, _, _) => h < |s.hands| && s.hands[h].items != [] && s.hands[h].items[0].serializable
    case SendContainer(h, _, _) => h < |s.hands| && AnySerializable(s.hands[h].items)
    case _ => false
  }

  /** The step hands a batch of metrics to a transport that is open and discards it. */
  predicate DiscardsMetrics(s: State, l: Label) {
    && l.SendContainer? && l.hand < |s.hands| && s.hands[l.hand].category.CategoryTraceMetric?
    && |Serializable(s.hands[l.hand].items)| > 1
    && !s.closed && (l.limited || |s.queue| >= s.queueSize)
  }

  /** The worker fails to send a batch of metrics. */
  predicate FailsMetrics(s: State, l: Label) {
    && s.worker.Busy? && s.worker.parcel.ContainerParcel? && s.worker.parcel.category.CategoryTraceMetric?
    && |s.worker.parcel.items| > 1
    && (l.WorkerLimited? || (l.Finish? && !l.answer.TooMany? && !l.answer.Taken?))
  }

  /** The guards of the branches in which items get lost. */
  predicate Loses(s: State, l: Label, cause: Cause) {
    match cause
    case NoBuffer => l.Add? && l.item.category !in s.buffers
    case TransportClosed => s.closed && Sends(s, l)
    case Unserialisable =>
      && l.SendContainer? && l.hand < |s.hands| && |s.hands[l.hand].items| > 1
      && !AllSerializable(s.hands[l.hand].items)
    case MetricBatch => DiscardsMetrics(s, l) || FailsMetrics(s, l)
    case TooManyRequests => l == Finish(TooMany)
    case WorkerStopped => l.WorkerStops? && s.queue != []
  }

  /** How many items have been lost for a cause. */
  function LostFor(ls: seq<Loss>, cause: Cause): nat {
    if ls == [] then 0 else (if ls[0].cause == cause then 1 else 0) + LostFor(ls[1..], cause)
  }

  lemma {:induction false} LostForLosses(c: Cause, items: seq<Item>, cause: Cause)
    ensures LostFor(Losses(c, items), cause) == if c == cause then |items| else 0
  {
    if items != [] {
      assert Losses(c, items)[1..] == Losses(c, items[1..]);
      LostForLosses(c, items[1..], cause);
    }
  }

  lemma {:induction false} LostForConcat(a: seq<Loss>, b: seq<Loss>, cause: Cause)
    ensures LostFor(a + b, cause) == LostFor(a, cause) + LostFor(b, cause)
  {
    if a == [] {
      assert a + b == b;
    } else {
      assert (a + b)[1..] == a[1..] + b;
      LostForConcat(a[1..], b, cause);
    }
  }

  /** Between `s` and `s'` items are lost for `cause` exactly if `loses`, and no loss is undone. */
  predicate LostIf(s: State, s': State, cause: Cause, loses: bool) {
    && LostFor(s'.unrecorded, cause) >= LostFor(s.unrecorded, cause)
    && (LostFor(s'.unrecorded, cause) > LostFor(s.unrecorded, cause) <==> loses)
  }

  lemma LosingLost(s: State, c: Cause, items: seq<Item>, cause: Cause)
    ensures LostIf(s, Losing(s, c, items), cause, c == cause && items != [])
  {
    LostForConcat(s.unrecorded, Losses(c, items), cause);
    LostForLosses(c, items, cause);
  }

  lemma DiscardParcelLost(s: State, reason: Reason, p: Parcel, cause: Cause)
    requires ParcelOk(p)
    ensures LostIf(s, DiscardParcel(s, reason, p), cause,
              cause.MetricBatch? && p.ContainerParcel? && p.category.CategoryTraceMetric? && |p.items| > 1)
  {
    LosingLost(s, MetricBatch, Unreported(p), cause);
    assert DiscardParcel(s, reason, p).unrecorded == Losing(s, MetricBatch, Unreported(p)).unrecorded;
  }

  lemma SendEnvelopeLost(s: State, p: Parcel, limited: bool, cause: Cause)
    requires ParcelOk(p)
    ensures LostIf(s, SendEnvelope(s, p, limited), cause,
              (cause.TransportClosed? && s.closed) ||
              (cause.MetricBatch? && p.ContainerParcel? && p.category.CategoryTraceMetric? && |p.items| > 1
               && !s.closed && (limited || |s.queue| >= s.queueSize)))
  {
    if s.closed {
      LosingLost(s, TransportClosed, ParcelItems(p), cause);
    } else if limited {
      DiscardParcelLost(s, RateLimitBackoff, p, cause);
    } else if |s.queue| >= s.queueSize {
      DiscardParcelLost(s, QueueOverflow, p, cause);
    }
  }

  lemma {:induction false} SerializableAny(items: seq<Item>)
    ensures Serializable(items) != [] <==> AnySerializable(items)
    ensures Skipped(items) == [] <==> AllSerializable(items)
  {
    if items != [] {
      SerializableAny(items[1..]);
      assert items == [items[0]] + items[1..];
    }
  }

  lemma SendEventLost(s: State, h: nat, length: int, limited: bool, cause: Cause)
    requires Shape(s) && Enabled(s, SendEvent(h, length, limited))
    ensures LostIf(s, Next(s, SendEvent(h, length, limited)), cause, Loses(s, SendEvent(h, length, limited), cause))
  {
    assert HandOk(s.hands[h]);
    var item := s.hands[h].items[0];
    if item.serializable {
      SendEnvelopeLost(SetHand(s, h, s.hands[h].items[1..], true), EventParcel(item, length, false), limited, cause);
    }
  }

  lemma NothingSerialisableLost(s: State, h: nat, length: int, limited: bool, cause: Cause)
    requires Shape(s) && Enabled(s, SendContainer(h, length, limited)) && Serializable(s.hands[h].items) == []
    ensures LostIf(s, Next(s, SendContainer(h, length, limited)), cause, cause.Unserialisable? && |s.hands[h].items| > 1)
  {
    var hand := s.hands[h];
    assert HandOk(hand);
    LosingLost(
      Discarding(SetHand(s, h, [], true), InternalError, [hand.items[0]], [Record(OutcomeKey(InternalError, hand.category), 1)]),
      Unserialisable, hand.items[1..], cause);
  }

  lemma ContainerSentLost(s: State, h: nat, length: int, limited: bool, cause: Cause)
    requires Shape(s) && Enabled(s, SendContainer(h, length, limited)) && Serializable(s.hands[h].items) != []
    ensures LostIf(s, Next(s, SendContainer(h, length, limited)), cause,
              (cause.Unserialisable? && Skipped(s.hands[h].items) != []) || (cause.TransportClosed? && s.closed) ||
              (cause.MetricBatch? && DiscardsMetrics(s, SendContainer(h, length, limited))))
  {
    var hand := s.hands[h];
    ContainerParcelOk(hand);
    var s1 := SetHand(s, h, [], true);
    LosingLost(s1, Unserialisable, Skipped(hand.items), cause);
    SendEnvelopeLost(Losing(s1, Unserialisable, Skipped(hand.items)),
      ContainerParcel(hand.category, Serializable(hand.items), length, false), limited, cause);
  }

  lemma SendContainerLost(s: State, h: nat, length: int, limited: bool, cause: Cause)
    requires Shape(s) && Enabled(s, SendContainer(h, length, limited))
    ensures LostIf(s, Next(s, SendContainer(h, length, limited)), cause, Loses(s, SendContainer(h, length, limited), cause))
  {
    var items := s.hands[h].items;
    SerializableAny(items);
    if Serializable(items) == [] {
      NothingSerialisableLost(s, h, length, limited, cause);
      assert !items[0].serializable;
    } else {
      ContainerSentLost(s, h, length, limited, cause);
    }
  }

  lemma WorkerLost(s: State, l: Label, cause: Cause)
    requires Shape(s) && Enabled(s, l) && (l.WorkerLimited? || l.Finish?)
    ensures LostIf(s, Next(s, l), cause, Loses(s, l, cause))
  {
    var s1, p := s.(worker := Idle), s.worker.parcel;
    if l.WorkerLimited? {
      DiscardParcelLost(s1, RateLimitBackoff, p, cause);
    } else {
      var s2 := ReportEnds(s1, s.worker.carried, l.answer.Taken?);
      match l.answer {
        case RequestFailed => DiscardParcelLost(s2, InternalError, p, cause);
        case NetworkFailed => DiscardParcelLost(s2, NetworkError, p, cause);
        case Refused => DiscardParcelLost(s2, SendError, p, cause);
        case TooMany => LosingLost(s2, TooManyRequests, ParcelItems(p), cause);
        case Taken =>
      }
    }
  }

  lemma WorkerStopsLost(s: State, cause: Cause)
    requires Shape(s)
    ensures LostIf(s, WorkerStopsStep(s), cause, cause.WorkerStopped? && s.queue != [])
  {
    LosingLost(s.(worker := Stopped, queue := []), WorkerStopped, QueueItems(s.queue), cause);
    if s.queue != [] {
      assert ParcelOk(s.queue[0]);
    }
  }

  /** A step loses items for a cause exactly if it meets the guard of that cause. */
  lemma StepLosesIff(s: State, l: Label, cause: Cause)
    requires Shape(s) && Enabled(s, l)
    ensures LostIf(s, Next(s, l), cause, Loses(s, l, cause))
  {
    match l {
      case Add(item) => LosingLost(s.(offered := s.offered + [item]), NoBuffer, [item], cause);
      case SendEvent(h, length, limited) => SendEventLost(s, h, length, limited, cause);
      case SendContainer(h, length, limited) => SendContainerLost(s, h, length, limited, cause);
      case WorkerLimited => WorkerLost(s, l, cause);
      case Finish(_) => WorkerLost(s, l, cause);
      case WorkerStops => WorkerStopsLost(s, cause);
      case _ =>
    }
  }

  // ---------------------------------------------------------------------------
  // The runs that lose items
  // ---------------------------------------------------------------------------

  ghost predicate LosesAt(ss: seq<State>, ls: seq<Label>, j: nat, cause: Cause) {
    j < |ls| && j < |ss| && Loses(ss[j], ls[j], cause)
  }

  lemma RunLosesIff(ss: seq<State>, ls: seq<Label>, j: nat, cause: Cause)
    requires PipelineRuns.IsRun(ss, ls) && j < |ls|
    ensures LostIf(ss[j], ss[j + 1], cause, LosesAt(ss, ls, j, cause))
  {
    RunInv(ss, ls, j);
    assert StepAt(ss, ls, j);
    StepLosesIff(ss[j], ls[j], cause);
  }

  /** Items have been lost for a cause exactly if some step met its guard. */
  lemma {:induction false} LostIff(ss: seq<State>, ls: seq<Label>, i: nat, cause: Cause)
    requires PipelineRuns.IsRun(ss, ls) && i < |ss|
    ensures LostFor(ss[i].unrecorded, cause) > 0 <==> exists j: nat :: j < i && LosesAt(ss, ls, j, cause)
  {
    if i > 0 {
      LostIff(ss, ls, i - 1, cause);
      RunLosesIff(ss, ls, i - 1, cause);
    }
  }

  /** The conservation law: `x` is pending, delivered or recorded as often as it was offered. */
  predicate ConservedAt(s: State, x: Item) {
    Count(s.offered, x) == InBuffers(s.buffers, x) + InHands(s.hands, x) + InQueue(s.queue, x)
      + InWorker(s.worker, x) + Count(s.delivered, x) + InDiscarded(s.discarded, x)
  }

  lemma {:induction false} LostForAt(ls: seq<Loss>, i: nat)
    requires i < |ls|
    ensures LostFor(ls, ls[i].cause) > 0 && InLost(ls, ls[i].item) > 0
  {
    if i > 0 {
      LostForAt(ls[1..], i - 1);
    }
  }

  /** The law holds of every item exactly in the runs without a step that meets one of the guards. */
  lemma ConservationIff(ss: seq<State>, ls: seq<Label>, i: nat)
    requires PipelineRuns.IsRun(ss, ls) && i < |ss|
    ensures (forall x: Item :: ConservedAt(ss[i], x))
       <==> (forall j: nat, cause: Cause :: j < i ==> !LosesAt(ss, ls, j, cause))
  {
    var s := ss[i];
    RunInv(ss, ls, i);
    forall x: Item
      ensures ConservedAt(s, x) <==> InLost(s.unrecorded, x) == 0
    {
      assert PlacedAt(s, x);
    }
    forall cause: Cause
      ensures LostFor(s.unrecorded, cause) > 0 <==> exists j: nat :: j < i && LosesAt(ss, ls, j, cause)
    {
      LostIff(ss, ls, i, cause);
    }
    if s.unrecorded != [] {
      LostForAt(s.unrecorded, 0);
      assert !ConservedAt(s, s.unrecorded[0].item);
      assert LostFor(s.unrecorded, s.unrecorded[0].cause) > 0;
    } else {
      forall j: nat, cause: Cause | j < i
        ensures !LosesAt(ss, ls, j, cause)
      {
        assert LostFor(s.unrecorded, cause) == 0;
      }
    }
  }

  /** In particular it holds while the transport is open and no answer was a 429, if every offered
      item has a buffer, can be serialised and is not a metric. */
  lemma NothingUnrecorded(ss: seq<State>, ls: seq<Label>, i: nat, x: Item)
    requires PipelineRuns.IsRun(ss, ls) && i < |ss| && !ss[i].closed
    requires forall j :: 0 <= j < i ==> ls[j] != Finish(TooMany)
    requires forall k :: 0 <= k < |ss[i].offered| ==>
      var item := ss[i].offered[k];
      item.category in ss[i].buffers && item.serializable && !item.category.CategoryTraceMetric?
    ensures ss[i].unrecorded == [] && ConservedAt(ss[i], x)
  {
    RunInv(ss, ls, i);
    var s := ss[i];
    assert PlacedAt(s, x);
    if s.unrecorded != [] {
      var loss := s.unrecorded[0];
      assert Explained(s.buffers, s.closed, loss);
      LostForAt(s.unrecorded, 0);
      LostIff(ss, ls, i, loss.cause);
      assert PlacedAt(s, loss.item);
      CountMember(s.offered, loss.item);
      assert false;
    }
  }

  // ---------------------------------------------------------------------------
  // Client reports
  // ---------------------------------------------------------------------------

  function Carried(w: Worker): seq<DiscardedEvent> {
    if w.Busy? then w.carried else []
  }

  /** What reports took has been received, is with the worker, or is gone. */
  predicate ReportsPlacedAt(s: State, key: OutcomeKey) {
    Quantity(s.ledger.taken, key)
      == Quantity(s.received, key) + Quantity(Carried(s.worker), key) + Quantity(s.gone, key)
  }

  predicate UnattachedEmpty(s: State) {
    s.worker.Busy? && !s.worker.attached ==> s.worker.carried == []
  }

  /** A report that is not empty cannot be encoded, or the request it is part of fails in any way. */
  predicate LosesReport(s: State, l: Label) {
    match l
    case Attach(events, encoded) => !encoded && events != []
    case Finish(answer) => !answer.Taken? && Carried(s.worker) != []
    case ReportTick(events, taken) => !taken && events != []
    case _ => false
  }

  /** The step has nothing to do with reports. */
  predicate SameReports(s: State, s': State) {
    && s'.ledger.taken == s.ledger.taken && s'.received == s.received && s'.gone == s.gone
    && Carried(s'.worker) == Carried(s.worker) && (UnattachedEmpty(s) ==> UnattachedEmpty(s'))
  }

  lemma SendsSameReports(s: State, l: Label)
    requires Shape(s) && Enabled(s, l) && (l.SendEvent? || l.SendContainer?)
    ensures SameReports(s, Next(s, l))
  {
    assert HandOk(s.hands[l.hand]);
    if l.SendContainer? && Serializable(s.hands[l.hand].items) != [] {
      ContainerParcelOk(s.hands[l.hand]);
    }
  }

  lemma FinishReports(s: State, answer: Answer, key: OutcomeKey)
    requires s.worker.Busy? && ParcelOk(s.worker.parcel) && ReportsPlacedAt(s, key)
    ensures var s' := FinishStep(s, answer);
      && ReportsPlacedAt(s', key) && UnattachedEmpty(s')
      && s'.gone == s.gone + if answer.Taken? then [] else s.worker.carried
  {
    QuantityConcat(s.received, s.worker.carried, key);
    QuantityConcat(s.gone, s.worker.carried, key);
  }

  lemma AttachReports(s: State, events: seq<DiscardedEvent>, encoded: bool, key: OutcomeKey)
    requires s.worker.Busy? && s.worker.carried == [] && ReportsPlacedAt(s, key)
    ensures var s' := AttachStep(s, events, encoded);
      && ReportsPlacedAt(s', key) && UnattachedEmpty(s') && s'.gone == s.gone + if encoded then [] else events
  {
    QuantityConcat(s.ledger.taken, events, key);
    QuantityConcat(s.gone, events, key);
  }

  lemma TickReports(s: State, events: seq<DiscardedEvent>, taken: bool, key: OutcomeKey)
    requires s.worker.Idle? && ReportsPlacedAt(s, key)
    ensures var s' := ReportEnds(TakeReportStep(s, events), events, taken);
      && ReportsPlacedAt(s', key) && UnattachedEmpty(s') && s'.gone == s.gone + if taken then [] else events
  {
    QuantityConcat(s.ledger.taken, events, key);
    QuantityConcat(s.received, events, key);
    QuantityConcat(s.gone, events, key);
  }

  lemma StepReports(s: State, l: Label, key: OutcomeKey)
    requires Shape(s) && Enabled(s, l) && ReportsPlacedAt(s, key) && UnattachedEmpty(s)
    ensures ReportsPlacedAt(Next(s, l), key) && UnattachedEmpty(Next(s, l))
    ensures s.gone <= Next(s, l).gone && (Next(s, l).gone != s.gone <==> LosesReport(s, l))
  {
    match l {
      case SendEvent(_, _, _) => SendsSameReports(s, l);
      case SendContainer(_, _, _) => SendsSameReports(s, l);
      case Finish(answer) => FinishReports(s, answer, key);
      case Attach(events, encoded) => AttachReports(s, events, encoded, key);
      case ReportTick(events, taken) => TickReports(s, events, taken, key);
      case _ =>
    }
  }

  ghost predicate LosesReportAt(ss: seq<State>, ls: seq<Label>, j: nat) {
    j < |ls| && j < |ss| && LosesReport(ss[j], ls[j])
  }

  /** Of all that was recorded for a key, the server has received, the worker carries, the counters
      hold, and the rest is gone: which is so exactly if some step lost a report. */
  lemma {:induction false} ReportLedger(ss: seq<State>, ls: seq<Label>, i: nat, key: OutcomeKey)
    requires PipelineRuns.IsRun(ss, ls) && i < |ss|
    ensures var s := ss[i];
      && Amount(s.ledger.recorded, key) == Quantity(s.received, key) + Quantity(Carried(s.worker), key)
           + Pending(s.ledger.outcomes, key) + Quantity(s.gone, key)
      && (s.gone != [] <==> exists j: nat :: j < i && LosesReportAt(ss, ls, j))
  {
    ReportRun(ss, ls, i, key);
    RunInv(ss, ls, i);
  }

  lemma {:induction false} ReportRun(ss: seq<State>, ls: seq<Label>, i: nat, key: OutcomeKey)
    requires PipelineRuns.IsRun(ss, ls) && i < |ss|
    ensures ReportsPlacedAt(ss[i], key) && UnattachedEmpty(ss[i])
    ensures ss[i].gone != [] <==> exists j: nat :: j < i && LosesReportAt(ss, ls, j)
  {
    if i > 0 {
      ReportRun(ss, ls, i - 1, key);
      RunInv(ss, ls, i - 1);
      assert StepAt(ss, ls, i - 1);
      StepReports(ss[i - 1], ls[i - 1], key);
      assert LosesReportAt(ss, ls, i - 1) <==> LosesReport(ss[i - 1], ls[i - 1]);
    }
  }

  // ---------------------------------------------------------------------------
  // A run for every way of losing something
  // ---------------------------------------------------------------------------

  /** A buffer of the category has room for `items`. */
  ghost predicate Accepts(s: State, c: Category, items: seq<Item>) {
    && Initial(s) && c in s.buffers && |items| <= s.buffers[c].capacity
    && forall i :: 0 <= i < |items| ==> items[i].category == c
  }

  /** The state after `items` have been offered. */
  ghost function Filled(s: State, c: Category, items: seq<Item>): State
    requires c in s.buffers
  {
    s.(buffers := s.buffers[c := s.buffers[c].(queue := items)], offered := items)
  }

  lemma FilledNext(s: State, c: Category, items: seq<Item>, item: Item)
    requires Accepts(s, c, items + [item]) && item.category == c && Configured(Filled(s, c, items).buffers)
    ensures AddStep(Filled(s, c, items), item) == Filled(s, c, items + [item])
  {
    var s1 := Filled(s, c, items);
    var b := s1.buffers[c];
    assert RingOffer(b.queue, b.capacity, b.policy, item) == Offered(items + [item], true, []);
    assert s1.buffers[c := b.(queue := items + [item])] == s.buffers[c := s.buffers[c].(queue := items + [item])];
  }

  lemma {:induction false} OfferRun(s: State, c: Category, items: seq<Item>) returns (ss: seq<State>, ls: seq<Label>)
    requires Accepts(s, c, items)
    ensures PipelineRuns.IsRun(ss, ls) && ss[0] == s && ss[|ls|] == Filled(s, c, items)
    decreases |items|
  {
    if items == [] {
      ss, ls := [s], [];
      assert s.buffers[c := s.buffers[c].(queue := items)] == s.buffers;
    } else {
      var n := |items| - 1;
      assert items == items[..n] + [items[n]];
      ss, ls := OfferRun(s, c, items[..n]);
      ss, ls := Extend(ss, ls, Add(items[n]));
      FilledNext(s, c, items[..n], items[n]);
    }
  }

  lemma FilledPolled(s: State, c: Category, items: seq<Item>)
    requires Accepts(s, c, items)
    ensures PollStep(Filled(s, c, items), c, |items|) == s.(hands := [Hand(c, items, false)], offered := items)
  {
    var s1 := Filled(s, c, items);
    assert items[..|items|] == items && items[|items|..] == [] && s.buffers[c].queue == [];
    assert s1.buffers[c := s1.buffers[c].(queue := [])] == s.buffers;
  }

  /** All items have been offered, polled and found neither limited nor over capacity. */
  lemma HandRun(s: State, c: Category, items: seq<Item>) returns (ss: seq<State>, ls: seq<Label>)
    requires Accepts(s, c, items) && items != []
    ensures PipelineRuns.IsRun(ss, ls) && ss[0] == s
    ensures ss[|ls|] == s.(hands := [Hand(c, items, true)], offered := items)
  {
    ss, ls := OfferRun(s, c, items);
    FilledPolled(s, c, items);
    ss, ls := Extend(ss, ls, Poll(c, |items|));
    ss, ls := Extend(ss, ls, StartSending(0));
    assert ss[|ls|].hands == [Hand(c, items, true)];
  }

  lemma OneLoss(cause: Cause, item: Item)
    ensures Losses(cause, [item]) == [Loss(cause, item)]
  {
    LossesAt(cause, [item]);
  }

  lemma PairSerializable(a: Item, b: Item)
    ensures Serializable([a, b]) == (if a.serializable then [a] else []) + (if b.serializable then [b] else [])
    ensures Skipped([a, b]) == (if a.serializable then [] else [a]) + (if b.serializable then [] else [b])
  {
    assert [a, b][1..] == [b] && [b][1..] == [];
    assert Serializable([b]) == if b.serializable then [b] else [];
    assert Skipped([b]) == if b.serializable then [] else [b];
  }

  /** An offer in a category without a buffer. */
  lemma LostWithoutBuffer(s: State, item: Item) returns (ss: seq<State>, ls: seq<Label>)
    requires Initial(s) && item.category !in s.buffers
    ensures PipelineRuns.IsRun(ss, ls) && ss[0] == s && ss[|ls|].unrecorded == [Loss(NoBuffer, item)]
  {
    OneLoss(NoBuffer, item);
    ss, ls := Extend([s], [], Add(item));
  }

  /** Close between the poll and the send. */
  lemma LostOnClose(s: State, item: Item) returns (ss: seq<State>, ls: seq<Label>)
    requires Accepts(s, item.category, [item]) && IsEventCategory(item.category) && item.serializable
    ensures PipelineRuns.IsRun(ss, ls) && ss[0] == s && ss[|ls|].unrecorded == [Loss(TransportClosed, item)]
  {
    OneLoss(TransportClosed, item);
    ss, ls := HandRun(s, item.category, [item]);
    ss, ls := Extend(ss, ls, Close);
    ss, ls := Extend(ss, ls, SendEvent(0, 0, false));
  }

  /** A log that cannot be serialised next to one that can. */
  lemma LostInContainer(s: State, good: Item, bad: Item) returns (ss: seq<State>, ls: seq<Label>)
    requires Accepts(s, CategoryLog, [good, bad]) && good.serializable && !bad.serializable && s.queueSize > 0
    ensures PipelineRuns.IsRun(ss, ls) && ss[0] == s && ss[|ls|].unrecorded == [Loss(Unserialisable, bad)]
  {
    OneLoss(Unserialisable, bad);
    PairSerializable(good, bad);
    assert Serializable([good, bad]) == [good] && Skipped([good, bad]) == [bad];
    ss, ls := HandRun(s, CategoryLog, [good, bad]);
    ss, ls := Extend(ss, ls, SendContainer(0, 0, false));
  }

  /** Two metrics in a batch that is rate limited. */
  lemma LostInBatch(s: State, a: Item, b: Item) returns (ss: seq<State>, ls: seq<Label>)
    requires Accepts(s, CategoryTraceMetric, [a, b]) && a.serializable && b.serializable
    ensures PipelineRuns.IsRun(ss, ls) && ss[0] == s && ss[|ls|].unrecorded == [Loss(MetricBatch, b)]
  {
    OneLoss(MetricBatch, b);
    PairSerializable(a, b);
    assert [a, b][1..] == [b];
    ss, ls := HandRun(s, CategoryTraceMetric, [a, b]);
    ss, ls := Extend(ss, ls, SendContainer(0, 0, true));
  }

  /** An envelope that is answered with a 429. */
  lemma LostAfter429(s: State, item: Item) returns (ss: seq<State>, ls: seq<Label>)
    requires Accepts(s, item.category, [item]) && IsEventCategory(item.category) && item.serializable && s.queueSize > 0
    ensures PipelineRuns.IsRun(ss, ls) && ss[0] == s && ss[|ls|].unrecorded == [Loss(TooManyRequests, item)]
  {
    OneLoss(TooManyRequests, item);
    ss, ls := HandRun(s, item.category, [item]);
    ss, ls := Extend(ss, ls, SendEvent(0, 0, false));
    ss, ls := Extend(ss, ls, Dequeue);
    ss, ls := Extend(ss, ls, Attach([], true));
    ss, ls := Extend(ss, ls, Finish(TooMany));
  }

  /** Close while an envelope is queued, which the worker does not take any more. */
  lemma LostInQueue(s: State, item: Item) returns (ss: seq<State>, ls: seq<Label>)
    requires Accepts(s, item.category, [item]) && IsEventCategory(item.category) && item.serializable && s.queueSize > 0
    ensures PipelineRuns.IsRun(ss, ls) && ss[0] == s && ss[|ls|].unrecorded == [Loss(WorkerStopped, item)]
  {
    OneLoss(WorkerStopped, item);
    ss, ls := HandRun(s, item.category, [item]);
    ss, ls := Extend(ss, ls, SendEvent(0, 0, false));
    assert ss[|ls|].queue == [EventParcel(item, 0, false)];
    assert QueueItems(ss[|ls|].queue) == [item];
    ss, ls := Extend(ss, ls, Close);
    ss, ls := Extend(ss, ls, WorkerStops);
  }

  /** What is pending after an error that cannot be serialised. */
  lemma ErrorRecorded(bad: Item)
    requires bad.category.CategoryError?
    ensures var key := OutcomeKey(InternalError, CategoryError);
      RecordedAll(map[], ItemRecords(InternalError, bad)) == map[key := 1]
      && Reports([DiscardedEvent(key, 1)], map[key := 1])
  {
    var key := OutcomeKey(InternalError, CategoryError);
    var record := Record(key, 1);
    assert RecordedAll(map[], [record]) == Recorded(map[], record);
    assert ItemRecords(InternalError, bad) == [record];
    assert [DiscardedEvent(key, 1)][0].key == key;
  }

  /** The first error is recorded, the second one is with the worker. */
  lemma BadThenGood(s: State, bad: Item, good: Item) returns (ss: seq<State>, ls: seq<Label>)
    requires Accepts(s, CategoryError, [bad, good]) && !bad.serializable && good.serializable && s.queueSize > 0
    ensures PipelineRuns.IsRun(ss, ls) && ss[0] == s
    ensures var t := ss[|ls|];
      && t.worker == Busy(EventParcel(good, 0, false), false, []) && t.received == [] && t.gone == []
      && t.ledger.outcomes == map[OutcomeKey(InternalError, CategoryError) := 1]
  {
    assert [bad, good][0] == bad;
    ErrorRecorded(bad);
    ss, ls := HandRun(s, CategoryError, [bad, good]);
    ss, ls := Extend(ss, ls, SendEvent(0, 0, false));
    assert ss[|ls|].hands == [Hand(CategoryError, [good], true)];
    ss, ls := Extend(ss, ls, SendEvent(0, 0, false));
    ss, ls := Extend(ss, ls, Dequeue);
  }

  /** The report of an error that cannot be serialised travels with the next one, whose request fails. */
  lemma ReportGoesDown(s: State, bad: Item, good: Item) returns (ss: seq<State>, ls: seq<Label>)
    requires Accepts(s, CategoryError, [bad, good]) && !bad.serializable && good.serializable && s.queueSize > 0
    ensures PipelineRuns.IsRun(ss, ls) && ss[0] == s
    ensures ss[|ls|].gone == [DiscardedEvent(OutcomeKey(InternalError, CategoryError), 1)] && ss[|ls|].received == []
  {
    ss, ls := BadThenGood(s, bad, good);
    assert [bad, good][0] == bad;
    ErrorRecorded(bad);
    var events := [DiscardedEvent(OutcomeKey(InternalError, CategoryError), 1)];
    ss, ls := Extend(ss, ls, Attach(events, true));
    ss, ls := Extend(ss, ls, Finish(NetworkFailed));
  }
}
