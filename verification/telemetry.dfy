/** processItems, sendItem (internal/telemetry/scheduler.go), SendEnvelope and sendEnvelopeHTTP
    (internal/http/transport.go) as code over their fields, proved to take steps of the pipeline.
    What rate limits, capacity tests and HTTP answers say is open. */
module Telemetries {
  import opened Wrappers
  import opened BufferModels
  import opened Outcomes
  import opened Aggregators
  import opened Pipelines
  import opened PipelineLedgers
  import opened PipelineRuns

  class Telemetry {
    var buffers: map<Category, Buf>
    var queue: seq<Parcel>
    const queueSize: nat
    var closed: bool
    const recorder: Aggregator
    /** The state of the pipeline, of which the fields show a part. */
    ghost var s: State

    ghost predicate Shows()
      reads this, recorder
    {
      && recorder.Valid() && s.ledger.outcomes == recorder.outcomes
      && s.buffers == buffers && s.queue == queue && s.queueSize == queueSize && s.closed == closed
    }

    /** The state is one that the pipeline can be in: what holds in every run holds here. */
    ghost predicate Valid()
      reads this, recorder
    {
      Shows() && Shape(s) && Reachable(s)
    }

    constructor (buffers: map<Category, Buf>, queueSize: nat, recorder: Aggregator)
      requires Configured(buffers) && forall c :: c in buffers ==> buffers[c].queue == []
      requires recorder.Valid() && recorder.outcomes == map[]
      ensures Valid() && Initial(s) && s.buffers == buffers && s.queueSize == queueSize && this.recorder == recorder
    {
      this.buffers, queue, this.queueSize, closed, this.recorder := buffers, [], queueSize, false, recorder;
      s := State(buffers, [], queueSize, [], Idle, false, Ledger(map[], [], []), [], [], [], [], [], []);
      new;
      InitialReachable(s);
    }

    // -------------------------------------------------------------------------
    // AsyncTransport
    // -------------------------------------------------------------------------

    method RecordForEnvelope(reason: Reason, p: Parcel)
      requires Shows() && ParcelOk(p)
      modifies this`s, recorder
      ensures Shows() && s == DiscardParcel(old(s), reason, p)
      ensures RecordedFor(old(recorder.outcomes), recorder.outcomes, reason, p)
    {
      RecordedForParcel(recorder.outcomes, reason, p);
      recorder.RecordForEnvelope(reason, EnvelopeOf(p));
      s := DiscardParcel(s, reason, p);
    }

    method SendEnvelope(p: Parcel) returns (ghost limited: bool)
      requires Shows() && ParcelOk(p)
      modifies this`queue, this`s, recorder
      ensures Shows() && s == Pipelines.SendEnvelope(old(s), p, limited)
    {
      limited := false;
      if closed {
        s := Losing(s, TransportClosed, ParcelItems(p));
        return;
      }
      var isRateLimited: bool := *;
      limited := isRateLimited;
      if isRateLimited {
        RecordForEnvelope(RateLimitBackoff, p);
        return;
      }
      if |queue| < queueSize {
        queue := queue + [p];
        s := s.(queue := queue);
      } else {
        RecordForEnvelope(QueueOverflow, p);
      }
    }

    /** The worker receives an envelope and sends it; then it is free again. */
    method WorkerTurn()
      requires Valid() && queue != [] && s.worker.Idle?
      modifies this`queue, this`s, recorder
      ensures Valid() && queue == old(queue)[1..] && s.worker.Idle?
      ensures Settled(old(s), s, old(queue)[0])
    {
      StepReachable(s, Dequeue);
      var envelope := queue[0];
      queue := queue[1..];
      s := Next(s, Dequeue);
      ghost var before := s;
      SendEnvelopeHTTP(envelope);
      SettledSince(old(s), before, s, envelope, envelope);
    }

    /** The envelope is delivered or recorded. */
    method SendEnvelopeHTTP(envelope: Parcel)
      requires Valid() && s.worker == Busy(envelope, false, [])
      modifies this`s, recorder
      ensures Valid() && s.worker.Idle? && s.queue == old(s).queue
      ensures Settled(old(s), s, envelope)
    {
      var limited: bool := *;
      if limited {
        BackOff(envelope);
      } else {
        Request(envelope);
      }
    }

    /** The request for an envelope that is not rate limited. */
    method Request(envelope: Parcel)
      requires Valid() && s.worker == Busy(envelope, false, [])
      modifies this`s, recorder
      ensures Valid() && s.worker.Idle? && s.queue == old(s).queue
      ensures Settled(old(s), s, envelope)
    {
      ghost var start := s;
      var attached, events, encoded := AttachToEnvelope(envelope);
      ghost var answer := Answered(attached);
      AttachedSettles(start, events, encoded, answer);
    }

    /** A rate limit that has come up while the envelope was queued. */
    method BackOff(envelope: Parcel)
      requires Valid() && s.worker == Busy(envelope, false, [])
      modifies this`s, recorder
      ensures Valid() && s.worker.Idle? && s.queue == old(s).queue
      ensures Settled(old(s), s, envelope)
    {
      StepReachable(s, WorkerLimited);
      DiscardSettles(s, RateLimitBackoff, envelope);
      RecordForEnvelope(RateLimitBackoff, envelope);
      s := s.(worker := Idle);
    }

    /** The accumulated report is taken, and attached if there is one that can be encoded. */
    method AttachToEnvelope(envelope: Parcel) returns (attached: Parcel, ghost events: seq<DiscardedEvent>, ghost encoded: bool)
      requires Valid() && s.worker == Busy(envelope, false, [])
      modifies this`s, recorder
      ensures Valid() && s == AttachStep(old(s), events, encoded) && s.worker.parcel == attached
      ensures Reports(events, old(recorder.outcomes)) && recorder.outcomes == map[]
    {
      var report := recorder.TakeReport();
      var marshalled: bool := *;
      encoded, attached := marshalled, envelope.(report := false);
      events := if report.Some? then report.value else [];
      if report.Some? && marshalled {
        attached := envelope.(report := true);
        ReportNotEmpty(events, old(recorder.outcomes));
      }
      StepReachable(s, Attach(events, encoded));
      AttachedParcel(s, events, encoded);
      s := AttachStep(s, events, encoded);
    }

    /** A report on its own, at a tick of the worker. */
    method SendClientReport() returns (ghost events: seq<DiscardedEvent>, ghost taken: bool)
      requires Valid() && s.worker.Idle?
      modifies this`s, recorder
      ensures Valid() && s == ReportEnds(TakeReportStep(old(s), events), events, taken)
      ensures Reports(events, old(recorder.outcomes)) && recorder.outcomes == map[]
    {
      var report := recorder.TakeReport();
      var succeeded: bool := *;
      events, taken := if report.Some? then report.value else [], report.Some? && succeeded;
      StepReachable(s, ReportTick(events, taken));
      s := Next(s, ReportTick(events, taken));
    }

    /** What sendEnvelopeHTTP does with the answer. */
    method Answered(envelope: Parcel) returns (ghost answer: Answer)
      requires Valid() && s.worker.Busy? && s.worker.parcel == envelope && s.worker.attached
      modifies this`s, recorder
      ensures Valid() && s == FinishStep(old(s), answer)
      ensures answer.Taken? || answer.TooMany? ==> recorder.outcomes == old(recorder.outcomes)
      ensures answer.RequestFailed? ==> RecordedFor(old(recorder.outcomes), recorder.outcomes, InternalError, envelope)
      ensures answer.NetworkFailed? ==> RecordedFor(old(recorder.outcomes), recorder.outcomes, NetworkError, envelope)
      ensures answer.Refused? ==> RecordedFor(old(recorder.outcomes), recorder.outcomes, SendError, envelope)
    {
      var received: Answer := *;
      answer := received;
      StepReachable(s, Finish(answer));
      match received {
        case RequestFailed => RecordForEnvelope(InternalError, envelope);
        case NetworkFailed => RecordForEnvelope(NetworkError, envelope);
        case Refused => RecordForEnvelope(SendError, envelope);
        case TooMany => s := Losing(s, TooManyRequests, ParcelItems(envelope));
        case Taken => s := s.(delivered := s.delivered + ParcelItems(envelope));
      }
      s := ReportEnds(s.(worker := Idle), s.worker.carried, answer.Taken?);
    }

    // -------------------------------------------------------------------------
    // Scheduler
    // -------------------------------------------------------------------------

    /** RecordItem for every item. */
    method RecordItems(reason: Reason, items: seq<Item>)
      requires Shows()
      modifies this`s, recorder
      ensures Shows() && s == Discarding(old(s), reason, items, AllItemRecords(reason, items))
    {
      for i := 0 to |items|
        invariant recorder.Valid() && s == old(s)
        invariant RecordedAll(recorder.outcomes, AllItemRecords(reason, items[i..])) ==
          RecordedAll(old(recorder.outcomes), AllItemRecords(reason, items))
      {
        RecordedConcat(recorder.outcomes, ItemRecords(reason, items[i]), AllItemRecords(reason, items[i + 1..]));
        assert items[i..][1..] == items[i + 1..];
        recorder.RecordItem(reason, items[i]);
      }
      assert items[|items|..] == [];
      s := Discarding(s, reason, items, AllItemRecords(reason, items));
    }

    method Add(item: Item) returns (accepted: bool)
      requires Valid()
      modifies this`buffers, this`s, recorder
      ensures Valid() && s == AddStep(old(s), item)
      ensures accepted ==> item.category in buffers && item in buffers[item.category].queue
    {
      StepReachable(s, Label.Add(item));
      var next := s.(offered := s.offered + [item]);
      if item.category !in buffers {
        s := Losing(next, NoBuffer, [item]);
        return false;
      }
      var b := buffers[item.category];
      var offer := RingOffer(b.queue, b.capacity, b.policy, item);
      buffers := buffers[item.category := b.(queue := offer.state)];
      s := next.(buffers := buffers);
      RecordItems(BufferOverflow, offer.dropped);
      accepted := offer.accepted;
    }

    /** sendItem for an event. */
    method SendEvent(ghost h: nat, item: Item) returns (ghost length: int, ghost limited: bool)
      requires Valid() && h < |s.hands| && s.hands[h].sending && IsEventCategory(s.hands[h].category)
      requires s.hands[h].items != [] && s.hands[h].items[0] == item
      modifies this`queue, this`s, recorder
      ensures Valid() && HandOk(old(s).hands[h]) && s == SendEventStep(old(s), h, length, limited)
      ensures OnlyHand(old(s), s, h) && s.hands[h] == old(s).hands[h].(items := old(s).hands[h].items[1..])
    {
      ghost var before := s;
      var payload: int := *;
      length, limited := payload, false;
      s := SetHand(s, h, s.hands[h].items[1..], true);
      if item.serializable {
        limited := SendEnvelope(EventParcel(item, payload, false));
      } else {
        recorder.RecordItem(InternalError, item);
        s := Discarding(s, InternalError, [item], ItemRecords(InternalError, item));
      }
      StepReachable(before, Label.SendEvent(h, length, limited));
    }

    /** sendItem for the container of a batch. */
    method SendContainer(ghost h: nat, category: Category, items: seq<Item>) returns (ghost length: int, ghost limited: bool)
      requires Valid() && h < |s.hands| && s.hands[h] == Hand(category, items, true)
      requires items != [] && !IsEventCategory(category)
      modifies this`queue, this`s, recorder
      ensures Valid() && HandOk(old(s).hands[h]) && s == SendContainerStep(old(s), h, length, limited)
      ensures OnlyHand(old(s), s, h) && s.hands[h].items == []
    {
      ghost var before := s;
      var payload: int := *;
      length, limited := payload, false;
      s := SetHand(s, h, [], true);
      var serialised := Serializable(items);
      if serialised == [] {
        recorder.RecordOne(InternalError, category);
        s := Losing(
          Discarding(s, InternalError, [items[0]], [Record(OutcomeKey(InternalError, category), 1)]),
          Unserialisable, items[1..]);
      } else {
        ContainerParcelOk(before.hands[h]);
        s := Losing(s, Unserialisable, Skipped(items));
        limited := SendEnvelope(ContainerParcel(category, serialised, payload, false));
      }
      StepReachable(before, Label.SendContainer(h, length, limited));
    }

    /** The first two branches of processItems. */
    method DropItems(ghost h: nat, items: seq<Item>, limited: bool)
      requires Valid() && h < |s.hands| && !s.hands[h].sending && s.hands[h].items == items
      modifies this`s, recorder
      ensures Valid() && s == DropHandStep(old(s), h, limited)
    {
      StepReachable(s, DropHand(h, limited));
      s := SetHand(s, h, [], false);
      RecordItems(if limited then RateLimitBackoff else QueueOverflow, items);
    }

    /** The loop of processItems over events. */
    method SendEvents(ghost h: nat, items: seq<Item>)
      requires Valid() && h < |s.hands| && s.hands[h].sending && s.hands[h].items == items
      requires IsEventCategory(s.hands[h].category)
      modifies this`queue, this`s, recorder
      ensures Valid() && OnlyHand(old(s), s, h) && s.hands[h].items == []
    {
      ghost var category := s.hands[h].category;
      assert items[0..] == items;
      for i := 0 to |items|
        invariant Valid() && OnlyHand(old(s), s, h) && s.hands[h] == Hand(category, items[i..], true)
      {
        assert items[i..][0] == items[i] && items[i..][1..] == items[i + 1..];
        ghost var length, limited := SendEvent(h, items[i]);
      }
    }

    /** The rest of processItems: events go one by one, logs and metrics as one container. */
    method SendItems(ghost h: nat, category: Category, items: seq<Item>)
      requires Valid() && h < |s.hands| && s.hands[h] == Hand(category, items, false) && items != []
      modifies this`queue, this`s, recorder
      ensures Valid() && OnlyHand(old(s), s, h) && s.hands[h].items == []
    {
      assert HandOk(s.hands[h]);
      StepReachable(s, StartSending(h));
      s := SetHand(s, h, items, true);
      if category == CategoryLog || category == CategoryTraceMetric {
        ghost var length, limited := SendContainer(h, category, items);
      } else {
        SendEvents(h, items);
      }
    }

    /** processItems: `count` items are taken from the buffer, by PollIfReady or by Drain, and all of
        them are sent on, discarded or lost for a cause: none stays behind with the call. */
    method ProcessItems(category: Category, count: nat)
      requires Valid() && category in buffers && count <= |buffers[category].queue|
      modifies this`buffers, this`queue, this`s, recorder
      ensures Valid() && s.offered == old(s).offered
      ensures buffers == old(buffers)[category := old(buffers)[category].(queue := old(buffers)[category].queue[count..])]
      ensures count > 0 ==>
        |s.hands| == |old(s).hands| + 1 && s.hands[..|old(s).hands|] == old(s).hands && s.hands[|old(s).hands|].items == []
    {
      var b := buffers[category];
      var items := b.queue[..count];
      if |items| == 0 {
        assert b.(queue := b.queue[count..]) == b;
        return;
      }
      ghost var h := |s.hands|;
      TakeItems(category, count);
      SettleItems(h, category, items);
    }

    /** PollIfReady or Drain on the buffer. */
    method TakeItems(category: Category, count: nat)
      requires Valid() && category in buffers && 0 < count <= |buffers[category].queue|
      modifies this`buffers, this`s
      ensures Valid() && s == PollStep(old(s), category, count)
    {
      StepReachable(s, Poll(category, count));
      var b := buffers[category];
      buffers := buffers[category := b.(queue := b.queue[count..])];
      s := PollStep(s, category, count);
    }

    /** The rest of processItems. */
    method SettleItems(ghost h: nat, category: Category, items: seq<Item>)
      requires Valid() && h < |s.hands| && s.hands[h] == Hand(category, items, false) && items != []
      modifies this`queue, this`s, recorder
      ensures Valid() && OnlyHand(old(s), s, h) && s.hands[h].items == []
    {
      var limited: bool := *;
      if limited {
        DropItems(h, items, true);
        return;
      }
      var hasCapacity: bool := *;
      if !hasCapacity {
        DropItems(h, items, false);
        return;
      }
      SendItems(h, category, items);
    }

    // -------------------------------------------------------------------------
    // Close
    // -------------------------------------------------------------------------

    /** Close, up to its wait for the worker. */
    method Close()
      requires Valid()
      modifies this`closed, this`s
      ensures Valid() && closed && s == old(s).(closed := true)
    {
      StepReachable(s, Label.Close);
      closed := true;
      s := s.(closed := true);
    }

    /** The worker sees the closed `done` and returns; nobody looks at the queue any more. */
    method WorkerReturns()
      requires Valid() && closed && s.worker.Idle?
      modifies this`queue, this`s
      ensures Valid() && s == WorkerStopsStep(old(s))
    {
      StepReachable(s, WorkerStops);
      queue := [];
      s := WorkerStopsStep(s);
    }
  }

  /** Of the counters that a key other than bytes has, exactly those of the reason grow, by the
      items that the envelope reports. */
  ghost predicate RecordedFor(before: Counters, after: Counters, reason: Reason, p: Parcel)
    requires ParcelOk(p)
  {
    forall key: OutcomeKey :: !key.category.CategoryLogByte? ==> GrowsBy(before, after, key, ItemAmount(reason, Reported(p), key))
  }

  predicate GrowsBy(before: Counters, after: Counters, key: OutcomeKey, n: nat) {
    Pending(after, key) == Pending(before, key) + n
  }

  lemma RecordedForParcel(outcomes: Counters, reason: Reason, p: Parcel)
    requires ParcelOk(p) && Positive(outcomes)
    ensures RecordedFor(outcomes, RecordedAll(outcomes, EnvelopeRecords(reason, EnvelopeOf(p))), reason, p)
  {
    forall key: OutcomeKey | !key.category.CategoryLogByte?
      ensures GrowsBy(outcomes, RecordedAll(outcomes, EnvelopeRecords(reason, EnvelopeOf(p))), key,
                ItemAmount(reason, Reported(p), key))
    {
      RecordedAllPending(outcomes, EnvelopeRecords(reason, EnvelopeOf(p)), key);
      ParcelRecords(reason, p, key);
    }
  }

  lemma AttachedParcel(s: State, events: seq<DiscardedEvent>, encoded: bool)
    requires s.worker.Busy?
    ensures var s' := AttachStep(s, events, encoded);
      && s'.worker.Busy? && s'.worker.parcel == s.worker.parcel.(report := encoded && events != [])
      && s'.buffers == s.buffers && s'.queue == s.queue && s'.queueSize == s.queueSize && s'.closed == s.closed
      && s'.ledger.outcomes == map[]
  {
  }

  lemma ReportNotEmpty(events: seq<DiscardedEvent>, outcomes: Counters)
    requires Reports(events, outcomes) && outcomes != map[]
    ensures events != []
  {
    var key :| key in outcomes;
    var i :| 0 <= i < |events| && events[i].key == key;
  }

  /** What a call of processItems leaves alone once it has its items. */
  ghost predicate OnlyHand(s: State, s': State, h: nat) {
    && s'.offered == s.offered && s'.buffers == s.buffers && s'.closed == s.closed && s'.queueSize == s.queueSize
    && |s'.hands| == |s.hands| && h < |s.hands|
    && forall i :: 0 <= i < |s.hands| && i != h ==> s'.hands[i] == s.hands[i]
  }

  // ---------------------------------------------------------------------------
  // The end of an envelope
  // ---------------------------------------------------------------------------

  predicate Discarded(s: State, s': State, p: Parcel, reason: Reason)
    requires ParcelOk(p)
  {
    && s'.delivered == s.delivered && s'.discarded == s.discarded + Discards(reason, Reported(p))
    && s'.unrecorded == s.unrecorded + Losses(MetricBatch, Unreported(p))
  }

  /** The items of `p`, and no others, have been delivered, or lost to a 429 answer, or discarded for
      one reason and recorded, but for the metrics of a batch after the first. */
  ghost predicate Settled(s: State, s': State, p: Parcel) {
    && s'.offered == s.offered && s'.buffers == s.buffers && s'.hands == s.hands && ParcelOk(p)
    && ((s'.delivered == s.delivered + ParcelItems(p) && s'.discarded == s.discarded && s'.unrecorded == s.unrecorded)
        || (s'.delivered == s.delivered && s'.discarded == s.discarded
            && s'.unrecorded == s.unrecorded + Losses(TooManyRequests, ParcelItems(p)))
        || exists reason: Reason :: Discarded(s, s', p, reason))
  }

  lemma DiscardSettles(s: State, reason: Reason, p: Parcel)
    requires ParcelOk(p)
    ensures Settled(s, DiscardParcel(s, reason, p), p)
    ensures Settled(s, DiscardParcel(s, reason, p).(worker := Idle), p)
  {
    assert Discarded(s, DiscardParcel(s, reason, p), p, reason);
    assert Discarded(s, DiscardParcel(s, reason, p).(worker := Idle), p, reason);
  }

  lemma FinishSettles(s: State, answer: Answer)
    requires s.worker.Busy? && ParcelOk(s.worker.parcel)
    ensures Settled(s, FinishStep(s, answer), s.worker.parcel)
  {
    var p := s.worker.parcel;
    match answer {
      case RequestFailed => assert Discarded(s, FinishStep(s, answer), p, InternalError);
      case NetworkFailed => assert Discarded(s, FinishStep(s, answer), p, NetworkError);
      case Refused => assert Discarded(s, FinishStep(s, answer), p, SendError);
      case TooMany =>
      case Taken =>
    }
  }

  lemma AttachedSettles(s: State, events: seq<DiscardedEvent>, encoded: bool, answer: Answer)
    requires s.worker.Busy? && ParcelOk(s.worker.parcel)
    ensures var s1 := AttachStep(s, events, encoded); ParcelOk(s1.worker.parcel) && Settled(s, FinishStep(s1, answer), s.worker.parcel)
    ensures var s2 := FinishStep(AttachStep(s, events, encoded), answer); s2.worker.Idle? && s2.queue == s.queue
  {
    var s1 := AttachStep(s, events, encoded);
    FinishSettles(s1, answer);
    SettledSince(s, s1, FinishStep(s1, answer), s.worker.parcel, s1.worker.parcel);
  }

  lemma SettledSince(s0: State, s1: State, s2: State, p: Parcel, q: Parcel)
    requires Settled(s1, s2, q) && ParcelOk(p) && ParcelItems(p) == ParcelItems(q) && Reported(p) == Reported(q)
    requires s1.offered == s0.offered && s1.buffers == s0.buffers && s1.hands == s0.hands
    requires s1.delivered == s0.delivered && s1.discarded == s0.discarded && s1.unrecorded == s0.unrecorded
    ensures Settled(s0, s2, p)
  {
    if !(s2.delivered == s1.delivered + ParcelItems(q) && s2.discarded == s1.discarded && s2.unrecorded == s1.unrecorded)
       && !(s2.delivered == s1.delivered && s2.discarded == s1.discarded
            && s2.unrecorded == s1.unrecorded + Losses(TooManyRequests, ParcelItems(q))) {
      var reason: Reason :| Discarded(s1, s2, q, reason);
      assert Discarded(s0, s2, p, reason);
    }
  }
}
