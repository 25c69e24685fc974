/** The way of telemetry from a buffer to its end, with the account that is kept of it, as a
    labelled transition system: buffers and Scheduler (internal/telemetry), AsyncTransport
    (internal/http/transport.go) and Aggregator (report/aggregator.go).  Whether a category
    is rate limited, and what a request leads to, is chosen by the labels. */
module Pipelines {
  import opened BufferModels
  import opened Outcomes
  import opened Aggregators
  import opened Wrappers

  datatype Buf = Buf(queue: seq<Item>, capacity: nat, policy: OverflowPolicy)

  /** A call of processItems: the items that it took and has yet to deal with. */
  datatype Hand = Hand(category: Category, items: seq<Item>, sending: bool)

  /** An envelope; `report` says whether a client report is attached. */
  datatype Parcel =
    | EventParcel(item: Item, length: int, report: bool)
    | ContainerParcel(category: Category, items: seq<Item>, length: int, report: bool)

  /** `carried` is the content of the attached client report. */
  datatype Worker = Idle | Stopped | Busy(parcel: Parcel, attached: bool, carried: seq<DiscardedEvent>)

  datatype Discard = Discard(reason: Reason, item: Item)

  /** Why an item is neither delivered nor recorded. */
  datatype Cause = NoBuffer | TransportClosed | Unserialisable | MetricBatch | TooManyRequests | WorkerStopped

  datatype Loss = Loss(cause: Cause, item: Item)

  /** `received` and `gone` are the client reports that the server took and that it did not. */
  datatype State = State(
    buffers: map<Category, Buf>,
    hands: seq<Hand>,
    queueSize: nat,
    queue: seq<Parcel>,
    worker: Worker,
    closed: bool,
    ledger: Ledger,
    offered: seq<Item>,
    delivered: seq<Item>,
    discarded: seq<Discard>,
    unrecorded: seq<Loss>,
    received: seq<DiscardedEvent>,
    gone: seq<DiscardedEvent>)

  /** `Refused` is any status but 2xx and 429; a 429 is not a send error. */
  datatype Answer = RequestFailed | NetworkFailed | Refused | TooMany | Taken

  datatype Label =
    | Add(item: Item)
    | Poll(category: Category, count: nat)
    | DropHand(hand: nat, limited: bool)
    | StartSending(hand: nat)
    | SendEvent(hand: nat, length: int, limited: bool)
    | SendContainer(hand: nat, length: int, limited: bool)
    | Dequeue
    | WorkerLimited
    | Attach(events: seq<DiscardedEvent>, encoded: bool)
    | Finish(answer: Answer)
    | ReportTick(events: seq<DiscardedEvent>, taken: bool)
    | Close
    | WorkerStops

  // ---------------------------------------------------------------------------
  // Parcels
  // ---------------------------------------------------------------------------

  /** The categories of events, logs and metrics. */
  predicate IsItemCategory(c: Category) {
    IsEventCategory(c) || c.CategoryLog? || c.CategoryTraceMetric?
  }

  function ParcelItems(p: Parcel): seq<Item> {
    if p.EventParcel? then [p.item] else p.items
  }

  function AttachedReport(p: Parcel): Envelope {
    if p.report then [EnvelopeItem(ClientReportType, Some(0), None, 0)] else []
  }

  predicate ParcelOk(p: Parcel) {
    match p
    case EventParcel(item, _, _) => IsEventCategory(item.category) && item.serializable
    case ContainerParcel(category, items, _, _) =>
      && (category.CategoryLog? || category.CategoryTraceMetric?)
      && items != [] && Serializable(items) == items
      && forall i :: 0 <= i < |items| ==> items[i].category == category
  }

  function EnvelopeOf(p: Parcel): Envelope
    requires ParcelOk(p)
  {
    match p
    case EventParcel(item, length, _) => EventEnvelope(item, length).value + AttachedReport(p)
    case ContainerParcel(category, items, length, _) => ContainerEnvelope(category, items, length).value + AttachedReport(p)
  }

  /** The items for which discarding the parcel records something: of metrics, only one. */
  function Reported(p: Parcel): seq<Item>
    requires ParcelOk(p)
  {
    if p.ContainerParcel? && p.category.CategoryTraceMetric? then [p.items[0]] else ParcelItems(p)
  }

  function Unreported(p: Parcel): seq<Item>
    requires ParcelOk(p)
  {
    if p.ContainerParcel? && p.category.CategoryTraceMetric? then p.items[1..] else []
  }

  // ---------------------------------------------------------------------------
  // Steps
  // ---------------------------------------------------------------------------

  function Discards(reason: Reason, items: seq<Item>): seq<Discard> {
    if items == [] then [] else [Discard(reason, items[0])] + Discards(reason, items[1..])
  }

  function Losses(cause: Cause, items: seq<Item>): seq<Loss> {
    if items == [] then [] else [Loss(cause, items[0])] + Losses(cause, items[1..])
  }

  /** RecordItem for every item. */
  function AllItemRecords(reason: Reason, items: seq<Item>): seq<Record> {
    if items == [] then [] else ItemRecords(reason, items[0]) + AllItemRecords(reason, items[1..])
  }

  /** `items` are discarded while `records` are recorded. */
  function Discarding(s: State, reason: Reason, items: seq<Item>, records: seq<Record>): State {
    s.(discarded := s.discarded + Discards(reason, items), ledger := Do(s.ledger, RecordOp(records)))
  }

  function Losing(s: State, cause: Cause, items: seq<Item>): State {
    s.(unrecorded := s.unrecorded + Losses(cause, items))
  }

  /** RecordForEnvelope. */
  function DiscardParcel(s: State, reason: Reason, p: Parcel): State
    requires ParcelOk(p)
  {
    Losing(Discarding(s, reason, Reported(p), EnvelopeRecords(reason, EnvelopeOf(p))), MetricBatch, Unreported(p))
  }

  /** AsyncTransport.SendEnvelope. */
  function SendEnvelope(s: State, p: Parcel, limited: bool): State
    requires ParcelOk(p)
  {
    if s.closed then Losing(s, TransportClosed, ParcelItems(p))
    else if limited then DiscardParcel(s, RateLimitBackoff, p)
    else if |s.queue| < s.queueSize then s.(queue := s.queue + [p])
    else DiscardParcel(s, QueueOverflow, p)
  }

  function SetHand(s: State, h: nat, items: seq<Item>, sending: bool): State
    requires h < |s.hands|
  {
    s.(hands := s.hands[h := Hand(s.hands[h].category, items, sending)])
  }

  /** Scheduler.Add and the buffer's Offer. */
  function AddStep(s: State, item: Item): State
    requires Configured(s.buffers)
  {
    var s1 := s.(offered := s.offered + [item]);
    if item.category !in s.buffers then Losing(s1, NoBuffer, [item])
    else
      var b := s.buffers[item.category];
      var o := RingOffer(b.queue, b.capacity, b.policy, item);
      Discarding(s1.(buffers := s.buffers[item.category := b.(queue := o.state)]),
        BufferOverflow, o.dropped, AllItemRecords(BufferOverflow, o.dropped))
  }

  function PollStep(s: State, category: Category, count: nat): State
    requires category in s.buffers && count <= |s.buffers[category].queue|
  {
    var b := s.buffers[category];
    s.(buffers := s.buffers[category := b.(queue := b.queue[count..])],
       hands := s.hands + [Hand(category, b.queue[..count], false)])
  }

  /** The first two branches of processItems: all items are recorded one by one. */
  function DropHandStep(s: State, h: nat, limited: bool): State
    requires h < |s.hands|
  {
    var reason := if limited then RateLimitBackoff else QueueOverflow;
    Discarding(SetHand(s, h, [], false), reason, s.hands[h].items, AllItemRecords(reason, s.hands[h].items))
  }

  /** sendItem for an event. */
  function SendEventStep(s: State, h: nat, length: int, limited: bool): State
    requires h < |s.hands| && s.hands[h].items != [] && IsEventCategory(s.hands[h].items[0].category)
  {
    var item := s.hands[h].items[0];
    var s1 := SetHand(s, h, s.hands[h].items[1..], true);
    if item.serializable then SendEnvelope(s1, EventParcel(item, length, false), limited)
    else Discarding(s1, InternalError, [item], ItemRecords(InternalError, item))
  }

  /** sendItem for an ItemContainer: if nothing in it can be serialised, one item is recorded. */
  function SendContainerStep(s: State, h: nat, length: int, limited: bool): State
    requires h < |s.hands| && s.hands[h].items != [] && HandOk(s.hands[h])
    requires s.hands[h].category.CategoryLog? || s.hands[h].category.CategoryTraceMetric?
  {
    var hand := s.hands[h];
    var s1 := SetHand(s, h, [], true);
    if Serializable(hand.items) == [] then
      Losing(
        Discarding(s1, InternalError, [hand.items[0]], [Record(OutcomeKey(InternalError, hand.category), 1)]),
        Unserialisable, hand.items[1..])
    else
      ContainerParcelOk(hand);
      SendEnvelope(Losing(s1, Unserialisable, Skipped(hand.items)),
        ContainerParcel(hand.category, Serializable(hand.items), length, false), limited)
  }

  /** What becomes of the content of a client report. */
  function ReportEnds(s: State, events: seq<DiscardedEvent>, taken: bool): State {
    if taken then s.(received := s.received + events) else s.(gone := s.gone + events)
  }

  /** A 429 answer is neither a success nor recorded, and the envelope is not sent again. */
  function FinishStep(s: State, answer: Answer): State
    requires s.worker.Busy? && ParcelOk(s.worker.parcel)
  {
    var p := s.worker.parcel;
    var s1 := ReportEnds(s.(worker := Idle), s.worker.carried, answer.Taken?);
    match answer
    case RequestFailed => DiscardParcel(s1, InternalError, p)
    case NetworkFailed => DiscardParcel(s1, NetworkError, p)
    case Refused => DiscardParcel(s1, SendError, p)
    case TooMany => Losing(s1, TooManyRequests, ParcelItems(p))
    case Taken => s1.(delivered := s.delivered + ParcelItems(p))
  }

  function QueueItems(queue: seq<Parcel>): seq<Item> {
    if queue == [] then [] else ParcelItems(queue[0]) + QueueItems(queue[1..])
  }

  /** The worker returns because `done` is closed; nobody looks at the queue any more. */
  function WorkerStopsStep(s: State): State {
    Losing(s.(worker := Stopped, queue := []), WorkerStopped, QueueItems(s.queue))
  }

  function TakeReportStep(s: State, events: seq<DiscardedEvent>): State {
    s.(ledger := Do(s.ledger, TakeOp(events)))
  }

  /** AttachToEnvelope: a report that cannot be encoded is dropped. */
  function AttachStep(s: State, events: seq<DiscardedEvent>, encoded: bool): State
    requires s.worker.Busy?
  {
    var s1 := TakeReportStep(s, events);
    if encoded then s1.(worker := Busy(s.worker.parcel.(report := events != []), true, events))
    else ReportEnds(s1.(worker := Busy(s.worker.parcel.(report := false), true, [])), events, false)
  }

  ghost predicate Enabled(s: State, l: Label) {
    match l
    case Add(item) => true
    case Poll(category, count) => category in s.buffers && 0 < count <= |s.buffers[category].queue|
    case DropHand(h, _) => h < |s.hands| && !s.hands[h].sending
    case StartSending(h) => h < |s.hands| && !s.hands[h].sending
    case SendEvent(h, _, _) =>
      h < |s.hands| && s.hands[h].sending && s.hands[h].items != [] && IsEventCategory(s.hands[h].category)
    case SendContainer(h, _, _) =>
      h < |s.hands| && s.hands[h].sending && s.hands[h].items != [] && !IsEventCategory(s.hands[h].category)
    case Dequeue => s.worker.Idle? && s.queue != []
    case WorkerLimited => s.worker.Busy? && !s.worker.attached
    case Attach(events, _) =>
      s.worker.Busy? && !s.worker.attached && Reports(events, s.ledger.outcomes)
    case Finish(_) => s.worker.Busy? && s.worker.attached
    case ReportTick(events, _) => s.worker.Idle? && Reports(events, s.ledger.outcomes)
    case Close => true
    case WorkerStops => s.closed && s.worker.Idle?
  }

  ghost function Next(s: State, l: Label): State
    requires Shape(s) && Enabled(s, l)
  {
    match l
    case Add(item) => AddStep(s, item)
    case Poll(category, count) => PollStep(s, category, count)
    case DropHand(h, limited) => DropHandStep(s, h, limited)
    case StartSending(h) => SetHand(s, h, s.hands[h].items, true)
    case SendEvent(h, length, limited) => SendEventStep(s, h, length, limited)
    case SendContainer(h, length, limited) => SendContainerStep(s, h, length, limited)
    case Dequeue => s.(queue := s.queue[1..], worker := Busy(s.queue[0], false, []))
    case WorkerLimited => DiscardParcel(s.(worker := Idle), RateLimitBackoff, s.worker.parcel)
    case Attach(events, encoded) => AttachStep(s, events, encoded)
    case Finish(answer) => FinishStep(s, answer)
    case ReportTick(events, taken) => ReportEnds(TakeReportStep(s, events), events, taken)
    case Close => s.(closed := true)
    case WorkerStops => WorkerStopsStep(s)
  }

  // ---------------------------------------------------------------------------
  // Shape
  // ---------------------------------------------------------------------------

  ghost predicate Configured(buffers: map<Category, Buf>) {
    forall c :: c in buffers ==>
      IsItemCategory(c) && buffers[c].capacity > 0 && |buffers[c].queue| <= buffers[c].capacity &&
      forall i :: 0 <= i < |buffers[c].queue| ==> buffers[c].queue[i].category == c
  }

  predicate HandOk(h: Hand) {
    && IsItemCategory(h.category)
    && forall i :: 0 <= i < |h.items| ==> h.items[i].category == h.category
  }

  ghost predicate Shape(s: State) {
    && Configured(s.buffers)
    && (forall h :: 0 <= h < |s.hands| ==> HandOk(s.hands[h]))
    && (forall q :: 0 <= q < |s.queue| ==> ParcelOk(s.queue[q]))
    && (s.worker.Busy? ==> ParcelOk(s.worker.parcel))
  }

  lemma {:induction false} SerializableTwice(items: seq<Item>)
    ensures Serializable(Serializable(items)) == Serializable(items)
  {
    if items != [] {
      SerializableTwice(items[1..]);
      if items[0].serializable {
        assert Serializable(items)[1..] == Serializable(items[1..]);
      } else {
        assert Serializable(items) == Serializable(items[1..]);
      }
    }
  }

  lemma ContainerParcelOk(hand: Hand)
    requires HandOk(hand) && Serializable(hand.items) != [] && !IsEventCategory(hand.category)
    ensures forall length: int :: ParcelOk(ContainerParcel(hand.category, Serializable(hand.items), length, false))
  {
    SerializableTwice(hand.items);
    SerializableCategory(hand.items, hand.category);
  }
}
