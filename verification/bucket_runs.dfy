/** Every sequence of operations on a BucketedBuffer: per-trace order, accounting
    and size bounds (internal/telemetry/bucketed_buffer.go). */
module BucketRuns {
  import opened BufferModels

  datatype Config = Config(itemCapacity: nat, bucketCapacity: nat, policy: OverflowPolicy, batchSize: nat)

  ghost predicate ConfigOk(c: Config) {
    c.itemCapacity > 0 && c.bucketCapacity > 0 && c.batchSize > 0
  }

  /** `elapsed` says that the flush timeout is on and has passed. */
  datatype Op<T> =
    | OfferOp(trace: TraceID, item: T)
    | PollOp
    | PollBatchOp(maxItems: int)
    | PollIfReadyOp(elapsed: bool)
    | DrainOp
    | ClearOp

  datatype Fate = HandedOut | Dropped | Cleared

  /** Items that left the buffer together, from one bucket. */
  datatype Chunk<T> = Chunk(bucket: TraceBucket<T>, fate: Fate)

  datatype Run<T> = Run(
    s: Buckets<T>, accepted: seq<TraceBucket<T>>, log: seq<Chunk<T>>, offered: nat, dropped: nat, refused: nat)

  function Start<T>(): Run<T> {
    Run(Buckets([], map[]), [], [], 0, 0, 0)
  }

  function Chunks<T>(bs: seq<TraceBucket<T>>, fate: Fate): seq<Chunk<T>> {
    if bs == [] then [] else [Chunk(bs[0], fate)] + Chunks(bs[1..], fate)
  }

  /** The pieces that taking `n` items hands out, one per bucket touched. */
  function TakenChunks<T>(s: Buckets<T>, n: nat): seq<TraceBucket<T>>
    requires n <= Total(s.list)
    decreases |s.list|
  {
    if n == 0 || s.list == [] then []
    else if n < |s.list[0].items| then [s.list[0].(items := s.list[0].items[..n])]
    else [s.list[0]] + TakenChunks(RemoveHead(s), n - |s.list[0].items|)
  }

  /** How many items an operation takes from the front. */
  function TakeCount<T>(s: Buckets<T>, c: Config, op: Op<T>): (n: nat)
    ensures n <= Total(s.list)
  {
    match op
    case PollOp => Min(1, Total(s.list))
    case PollBatchOp(max) => if max <= 0 then 0 else Min(max, Total(s.list))
    case PollIfReadyOp(elapsed) =>
      if s.list != [] && (Total(s.list) >= c.batchSize || elapsed) then |s.list[0].items| else 0
    case _ => 0
  }

  function Step<T>(r: Run<T>, c: Config, op: Op<T>): Run<T>
    requires c.itemCapacity > 0 && c.bucketCapacity > 0
  {
    match op
    case OfferOp(trace, item) =>
      var o := BucketOffer(r.s, c.itemCapacity, c.bucketCapacity, c.policy, trace, item);
      if o.accepted then
        r.(s := o.state, accepted := r.accepted + [TraceBucket(trace, [item])], offered := r.offered + 1,
           dropped := r.dropped + |o.dropped|,
           log := r.log + if o.dropped == [] then [] else [Chunk(TraceBucket(r.s.list[0].trace, o.dropped), Dropped)])
      else
        r.(s := o.state, offered := r.offered + 1, dropped := r.dropped + |o.dropped|, refused := r.refused + 1)
    case DrainOp => r.(s := Buckets([], map[]), log := r.log + Chunks(r.s.list, HandedOut))
    case ClearOp => r.(s := Buckets([], map[]), log := r.log + Chunks(r.s.list, Cleared))
    case _ =>
      var n := TakeCount(r.s, c, op);
      r.(s := Take(r.s, n), log := r.log + Chunks(TakenChunks(r.s, n), HandedOut))
  }

  // ---------------------------------------------------------------------------
  // The items of one trace
  // ---------------------------------------------------------------------------

  function ItemsOf<T>(bs: seq<TraceBucket<T>>, t: TraceID): seq<T> {
    if bs == [] then [] else (if bs[0].trace == t then bs[0].items else []) + ItemsOf(bs[1..], t)
  }

  /** The items of trace `t` that left, in the order in which they left. */
  function RemovedOf<T>(log: seq<Chunk<T>>, t: TraceID): seq<T> {
    if log == [] then []
    else (if log[0].bucket.trace == t then log[0].bucket.items else []) + RemovedOf(log[1..], t)
  }

  lemma {:induction false} ItemsOfConcat<T>(a: seq<TraceBucket<T>>, b: seq<TraceBucket<T>>, t: TraceID)
    ensures ItemsOf(a + b, t) == ItemsOf(a, t) + ItemsOf(b, t)
  {
    if a == [] {
      assert a + b == b;
    } else {
      assert (a + b)[1..] == a[1..] + b;
      ItemsOfConcat(a[1..], b, t);
    }
  }

  lemma {:induction false} RemovedOfConcat<T>(a: seq<Chunk<T>>, b: seq<Chunk<T>>, t: TraceID)
    ensures RemovedOf(a + b, t) == RemovedOf(a, t) + RemovedOf(b, t)
  {
    if a == [] {
      assert a + b == b;
    } else {
      assert (a + b)[1..] == a[1..] + b;
      RemovedOfConcat(a[1..], b, t);
    }
  }

  lemma {:induction false} RemovedOfChunks<T>(bs: seq<TraceBucket<T>>, fate: Fate, t: TraceID)
    ensures RemovedOf(Chunks(bs, fate), t) == ItemsOf(bs, t)
  {
    if bs != [] {
      RemovedOfChunks(bs[1..], fate, t);
    }
  }

  /** Without buckets of its own, a trace has no items. */
  lemma {:induction false} ItemsOfNone<T>(bs: seq<TraceBucket<T>>, t: TraceID)
    requires forall i :: 0 <= i < |bs| ==> bs[i].trace != t
    ensures ItemsOf(bs, t) == []
  {
    if bs != [] {
      ItemsOfNone(bs[1..], t);
    }
  }

  /** Appending to the last bucket of a trace appends to that trace and to no other. */
  lemma AppendToLast<T>(bs: seq<TraceBucket<T>>, trace: TraceID, k: nat, item: T, t: TraceID)
    requires IsLast(bs, trace, k)
    ensures ItemsOf(bs[k := bs[k].(items := bs[k].items + [item])], t)
      == ItemsOf(bs, t) + (if t == trace then [item] else [])
  {
    var b := bs[k].(items := bs[k].items + [item]);
    var rest := bs[k + 1..];
    ItemsOfConcat(bs[..k], [bs[k]] + rest, t);
    ItemsOfConcat(bs[..k], [b] + rest, t);
    assert bs == bs[..k] + ([bs[k]] + rest) && bs[k := b] == bs[..k] + ([b] + rest);
    if t == trace {
      ItemsOfNone(rest, t);
    }
  }

  lemma {:induction false} TakenOf<T>(s: Buckets<T>, n: nat, t: TraceID)
    requires n <= Total(s.list)
    ensures ItemsOf(s.list, t) == ItemsOf(TakenChunks(s, n), t) + ItemsOf(Take(s, n).list, t)
    decreases |s.list|
  {
    if n == 0 || s.list == [] {
    } else if n < |s.list[0].items| {
      var first, rest := s.list[0].(items := s.list[0].items[..n]), s.list[0].(items := s.list[0].items[n..]);
      assert s.list[0].items == first.items + rest.items;
      assert s.list == [s.list[0]] + s.list[1..] && Take(s, n).list == [rest] + s.list[1..];
      ItemsOfConcat([first], [], t);
      assert TakenChunks(s, n) == [first];
    } else {
      TakenOf(RemoveHead(s), n - |s.list[0].items|, t);
    }
  }

  lemma {:induction false} TakenFlat<T>(s: Buckets<T>, n: nat)
    requires n <= Total(s.list)
    ensures Flatten(TakenChunks(s, n)) == Flatten(s.list)[..n]
    decreases |s.list|
  {
    if n > 0 && n >= |s.list[0].items| {
      TakenFlat(RemoveHead(s), n - |s.list[0].items|);
    }
  }

  // ---------------------------------------------------------------------------
  // Invariants of every run
  // ---------------------------------------------------------------------------

  ghost predicate Fifo<T>(r: Run<T>, t: TraceID) {
    ItemsOf(r.accepted, t) == RemovedOf(r.log, t) + ItemsOf(r.s.list, t)
  }

  /** What an accepted offer adds to the history, in each of its three ways. */
  lemma JoinFifo<T>(r: Run<T>, c: Config, trace: TraceID, item: T, t: TraceID)
    requires ConfigOk(c) && BucketsOk(r.s, c.bucketCapacity) && Fifo(r, t) && Joins(r.s, trace)
    ensures Fifo(Step(r, c, OfferOp(trace, item)), t)
  {
    assert r.log + [] == r.log;
    ItemsOfConcat(r.accepted, [TraceBucket(trace, [item])], t);
    assert IsLast(r.s.list, trace, r.s.index[trace]);
    AppendToLast(r.s.list, trace, r.s.index[trace], item, t);
  }

  lemma DropOldestFifo<T>(r: Run<T>, s: Buckets<T>, trace: TraceID, item: T, t: TraceID)
    requires Fifo(r, t) && s.list == r.s.list && s.list != []
    ensures var b := TraceBucket(trace, [item]);
      ItemsOf(r.accepted + [b], t)
      == RemovedOf(r.log + [Chunk(TraceBucket(s.list[0].trace, s.list[0].items), Dropped)], t)
         + ItemsOf(AddBucket(RemoveHead(s), trace, item).list, t)
  {
    var b := TraceBucket(trace, [item]);
    var d := Chunk(TraceBucket(s.list[0].trace, s.list[0].items), Dropped);
    ItemsOfConcat(r.accepted, [b], t);
    RemovedOfConcat(r.log, [d], t);
    ItemsOfConcat(s.list[1..], [b], t);
  }

  lemma AddFifo<T>(r: Run<T>, s: Buckets<T>, trace: TraceID, item: T, t: TraceID)
    requires Fifo(r, t) && s.list == r.s.list
    ensures ItemsOf(r.accepted + [TraceBucket(trace, [item])], t)
      == RemovedOf(r.log + [], t) + ItemsOf(AddBucket(s, trace, item).list, t)
  {
    assert r.log + [] == r.log;
    ItemsOfConcat(r.accepted, [TraceBucket(trace, [item])], t);
    ItemsOfConcat(r.s.list, [TraceBucket(trace, [item])], t);
  }

  predicate IsFull<T>(s: Buckets<T>, c: Config) {
    Total(s.list) >= c.itemCapacity || |s.list| >= c.bucketCapacity
  }

  lemma RoomFifo<T>(r: Run<T>, c: Config, trace: TraceID, item: T, t: TraceID)
    requires ConfigOk(c) && Fifo(r, t) && !Joins(r.s, trace) && !IsFull(r.s, c)
    ensures Fifo(Step(r, c, OfferOp(trace, item)), t)
  {
    AddFifo(r, Unindex(r.s, trace), trace, item, t);
  }

  lemma OverflowFifo<T>(r: Run<T>, c: Config, trace: TraceID, item: T, t: TraceID)
    requires ConfigOk(c) && Fifo(r, t) && !Joins(r.s, trace) && IsFull(r.s, c)
    requires r.s.list != [] && r.s.list[0].items != []
    ensures Fifo(Step(r, c, OfferOp(trace, item)), t)
  {
    if c.policy.DropOldest? {
      DropOldestFifo(r, Unindex(r.s, trace), trace, item, t);
    }
  }

  lemma OfferFifo<T>(r: Run<T>, c: Config, trace: TraceID, item: T, t: TraceID)
    requires ConfigOk(c) && BucketsOk(r.s, c.bucketCapacity) && Fifo(r, t)
    ensures Fifo(Step(r, c, OfferOp(trace, item)), t)
  {
    if Joins(r.s, trace) {
      JoinFifo(r, c, trace, item, t);
    } else if IsFull(r.s, c) {
      OverflowFifo(r, c, trace, item, t);
    } else {
      RoomFifo(r, c, trace, item, t);
    }
  }

  lemma RemovalFifo<T>(r: Run<T>, c: Config, op: Op<T>, t: TraceID)
    requires ConfigOk(c) && BucketsOk(r.s, c.bucketCapacity) && Fifo(r, t) && !op.OfferOp?
    ensures Fifo(Step(r, c, op), t)
  {
    if op.DrainOp? || op.ClearOp? {
      var fate := if op.DrainOp? then HandedOut else Cleared;
      RemovedOfConcat(r.log, Chunks(r.s.list, fate), t);
      RemovedOfChunks(r.s.list, fate, t);
    } else {
      var n := TakeCount(r.s, c, op);
      TakenOf(r.s, n, t);
      RemovedOfConcat(r.log, Chunks(TakenChunks(r.s, n), HandedOut), t);
      RemovedOfChunks(TakenChunks(r.s, n), HandedOut, t);
    }
  }

  lemma StepOk<T>(r: Run<T>, c: Config, op: Op<T>)
    requires ConfigOk(c) && BucketsOk(r.s, c.bucketCapacity)
    ensures BucketsOk(Step(r, c, op).s, c.bucketCapacity)
  {
    match op {
      case OfferOp(trace, item) => BucketOfferOk(r.s, c.itemCapacity, c.bucketCapacity, c.policy, trace, item);
      case DrainOp =>
      case ClearOp =>
      case _ => TakeOk(r.s, c.bucketCapacity, TakeCount(r.s, c, op));
    }
  }

  /** The state after any sequence of operations on a new buffer. */
  ghost function After<T>(c: Config, ops: seq<Op<T>>): (r: Run<T>)
    requires ConfigOk(c)
    ensures BucketsOk(r.s, c.bucketCapacity)
    decreases |ops|
  {
    if ops == [] then Start()
    else
      var r := After(c, ops[..|ops| - 1]);
      StepOk(r, c, ops[|ops| - 1]);
      Step(r, c, ops[|ops| - 1])
  }

  lemma AfterSnoc<T>(c: Config, ops: seq<Op<T>>, op: Op<T>)
    requires ConfigOk(c)
    ensures After(c, ops + [op]) == Step(After(c, ops), c, op)
  {
    assert (ops + [op])[..|ops|] == ops;
  }

  /** Per-trace FIFO: for every trace, what was accepted is what has left so far, in
      the order in which it left, followed by what is still buffered.  This holds
      through bucket splits, lost index entries and drops. */
  lemma {:induction false} PerTraceFifo<T>(c: Config, ops: seq<Op<T>>, t: TraceID)
    requires ConfigOk(c)
    ensures var r := After(c, ops); ItemsOf(r.accepted, t) == RemovedOf(r.log, t) + ItemsOf(r.s.list, t)
    decreases |ops|
  {
    if ops != [] {
      var before, op := ops[..|ops| - 1], ops[|ops| - 1];
      PerTraceFifo(c, before, t);
      if op.OfferOp? {
        OfferFifo(After(c, before), c, op.trace, op.item, t);
      } else {
        RemovalFifo(After(c, before), c, op, t);
      }
    }
  }

  // ---------------------------------------------------------------------------
  // Accounting
  // ---------------------------------------------------------------------------

  /** Items that left with the given fate. */
  function Left<T>(log: seq<Chunk<T>>, fate: Fate): nat {
    if log == [] then 0 else (if log[0].fate == fate then |log[0].bucket.items| else 0) + Left(log[1..], fate)
  }

  lemma {:induction false} LeftConcat<T>(a: seq<Chunk<T>>, b: seq<Chunk<T>>, fate: Fate)
    ensures Left(a + b, fate) == Left(a, fate) + Left(b, fate)
  {
    if a == [] {
      assert a + b == b;
    } else {
      assert (a + b)[1..] == a[1..] + b;
      LeftConcat(a[1..], b, fate);
    }
  }

  lemma {:induction false} LeftChunks<T>(bs: seq<TraceBucket<T>>, fate: Fate, f: Fate)
    ensures Left(Chunks(bs, fate), f) == if f == fate then Total(bs) else 0
  {
    if bs != [] {
      LeftChunks(bs[1..], fate, f);
    }
  }

  lemma {:induction false} TotalTaken<T>(s: Buckets<T>, n: nat)
    requires n <= Total(s.list)
    ensures Total(TakenChunks(s, n)) == n && Total(Take(s, n).list) == Total(s.list) - n
    decreases |s.list|
  {
    if n == 0 || s.list == [] {
    } else if n < |s.list[0].items| {
    } else {
      TotalTaken(RemoveHead(s), n - |s.list[0].items|);
    }
  }

  ghost predicate Balanced<T>(r: Run<T>) {
    && r.offered == Total(r.s.list) + Left(r.log, HandedOut) + r.dropped + Left(r.log, Cleared)
    && r.dropped == Left(r.log, Dropped) + r.refused
  }

  lemma LeftAppend<T>(log: seq<Chunk<T>>, d: Chunk<T>, fate: Fate)
    ensures Left(log + [d], fate) == Left(log, fate) + if d.fate == fate then |d.bucket.items| else 0
  {
    LeftConcat(log, [d], fate);
  }

  lemma OfferBalanced<T>(r: Run<T>, c: Config, trace: TraceID, item: T)
    requires ConfigOk(c) && BucketsOk(r.s, c.bucketCapacity) && Balanced(r)
    ensures Balanced(Step(r, c, OfferOp(trace, item)))
  {
    var o := BucketOffer(r.s, c.itemCapacity, c.bucketCapacity, c.policy, trace, item);
    assert r.log + [] == r.log;
    if Joins(r.s, trace) {
      JoinFacts(r.s, c.bucketCapacity, trace, item);
    } else if o.accepted {
      var b := TraceBucket(trace, [item]);
      TotalAppend(r.s.list, b);
      if o.dropped != [] {
        TotalAppend(r.s.list[1..], b);
        var d := Chunk(TraceBucket(r.s.list[0].trace, o.dropped), Dropped);
        LeftAppend(r.log, d, HandedOut);
        LeftAppend(r.log, d, Dropped);
        LeftAppend(r.log, d, Cleared);
      }
    }
  }

  lemma RemovalBalanced<T>(r: Run<T>, c: Config, op: Op<T>)
    requires ConfigOk(c) && BucketsOk(r.s, c.bucketCapacity) && Balanced(r) && !op.OfferOp?
    ensures Balanced(Step(r, c, op))
  {
    var fate := if op.ClearOp? then Cleared else HandedOut;
    var n := TakeCount(r.s, c, op);
    var bs := if op.DrainOp? || op.ClearOp? then r.s.list else TakenChunks(r.s, n);
    forall f: Fate
      ensures Left(r.log + Chunks(bs, fate), f) == Left(r.log, f) + if f == fate then Total(bs) else 0
    {
      LeftConcat(r.log, Chunks(bs, fate), f);
      LeftChunks(bs, fate, f);
    }
    TotalTaken(r.s, n);
  }

  /** Every offer is buffered, handed out, dropped or cleared: OfferedCount,
      DroppedCount and hence AcceptedCount are exact in every run. */
  lemma {:induction false} OffersAccounted<T>(c: Config, ops: seq<Op<T>>)
    requires ConfigOk(c)
    ensures var r := After(c, ops);
      && r.offered == Total(r.s.list) + Left(r.log, HandedOut) + r.dropped + Left(r.log, Cleared)
      && r.dropped == Left(r.log, Dropped) + r.refused
    decreases |ops|
  {
    if ops != [] {
      var before, op := ops[..|ops| - 1], ops[|ops| - 1];
      OffersAccounted(c, before);
      if op.OfferOp? {
        OfferBalanced(After(c, before), c, op.trace, op.item);
      } else {
        RemovalBalanced(After(c, before), c, op);
      }
    }
  }

  // ---------------------------------------------------------------------------
  // How large a buffer gets
  // ---------------------------------------------------------------------------

  /** The bound that holds in every run. */
  lemma SizeBound<T>(c: Config, ops: seq<Op<T>>)
    requires ConfigOk(c)
    ensures Total(After(c, ops).s.list) <= c.bucketCapacity * 100
  {
    TotalBound(After(c, ops).s.list);
  }

  /** `Size <= Capacity` survives an offer exactly when the offer does not join a
      bucket of a buffer that is at capacity: only new buckets are gated. */
  lemma CapacityKeptIff<T>(r: Run<T>, c: Config, trace: TraceID, item: T)
    requires ConfigOk(c) && BucketsOk(r.s, c.bucketCapacity) && Total(r.s.list) <= c.itemCapacity
    ensures Total(Step(r, c, OfferOp(trace, item)).s.list) <= c.itemCapacity
            <==> !(Joins(r.s, trace) && Total(r.s.list) == c.itemCapacity)
  {
    if Joins(r.s, trace) {
      JoinFacts(r.s, c.bucketCapacity, trace, item);
    } else {
      var b := TraceBucket(trace, [item]);
      TotalAppend(r.s.list, b);
      if r.s.list != [] {
        TotalAppend(r.s.list[1..], b);
      }
    }
  }

  /** One bucket with `n` items of the trace, or nothing yet. */
  ghost predicate OneTrace<T>(s: Buckets<T>, trace: TraceID, n: nat) {
    if n == 0 then s == Buckets([], map[])
    else s.index == map[trace := 0] && |s.list| == 1 && s.list[0].trace == trace && |s.list[0].items| == n
  }

  lemma OneTraceOffer<T>(run: Run<T>, c: Config, trace: TraceID, item: T, n: nat)
    requires ConfigOk(c) && trace != NoTrace && n < PER_BUCKET_ITEM_LIMIT && OneTrace(run.s, trace, n)
    ensures OneTrace(Step(run, c, OfferOp(trace, item)).s, trace, n + 1)
  {
  }

  /** `n` offers of one trace to a new buffer, up to the bucket limit, fill one bucket. */
  lemma {:induction false} OneTraceRun<T>(c: Config, trace: TraceID, item: T, n: nat)
    requires ConfigOk(c) && trace != NoTrace && n <= PER_BUCKET_ITEM_LIMIT
    ensures OneTrace(After(c, seq(n, i => OfferOp(trace, item))).s, trace, n)
    decreases n
  {
    if n > 0 {
      var before := seq(n - 1, i => OfferOp(trace, item));
      assert seq(n, i => OfferOp(trace, item)) == before + [OfferOp(trace, item)];
      OneTraceRun(c, trace, item, n - 1);
      AfterSnoc(c, before, OfferOp(trace, item));
      OneTraceOffer(After(c, before), c, trace, item, n - 1);
    }
  }

  /** `r` items of trace `b` in the first bucket, then `q` full buckets of trace `a` and one with `t` items. */
  ghost predicate TwoTraces<T>(s: Buckets<T>, a: TraceID, b: TraceID, r: nat, q: nat, t: nat) {
    && |s.list| == 1 + q + (if t > 0 then 1 else 0) && Total(s.list) == r + PER_BUCKET_ITEM_LIMIT * q + t
    && s.list[0].trace == b && |s.list[0].items| == r && b in s.index && s.index[b] == 0
    && if t == 0 then !Joins(s, a)
       else a in s.index && s.index[a] == |s.list| - 1 && |s.list[|s.list| - 1].items| == t
  }

  /** One more item of trace `a`, into the last bucket or into a new one. */
  lemma TwoTracesJoin<T>(s: Buckets<T>, bucketCapacity: nat, a: TraceID, b: TraceID, r: nat, q: nat, t: nat, item: T)
    requires BucketsOk(s, bucketCapacity) && TwoTraces(s, a, b, r, q, t) && a != b && 0 < t < PER_BUCKET_ITEM_LIMIT
    ensures Joins(s, a)
    ensures var s' := Join(s, a, item);
      if t + 1 < PER_BUCKET_ITEM_LIMIT then TwoTraces(s', a, b, r, q, t + 1) else TwoTraces(s', a, b, r, q + 1, 0)
  {
    JoinFacts(s, bucketCapacity, a, item);
  }

  lemma TwoTracesAdd<T>(s: Buckets<T>, a: TraceID, b: TraceID, r: nat, q: nat, item: T)
    requires TwoTraces(s, a, b, r, q, 0) && a != b && a != NoTrace
    ensures TwoTraces(AddBucket(Unindex(s, a), a, item), a, b, r, q, 1)
  {
    TotalAppend(s.list, TraceBucket(a, [item]));
  }

  /** The offer takes the first branch, or the last one. */
  lemma TwoTracesOffer<T>(run: Run<T>, c: Config, a: TraceID, b: TraceID, r: nat, q: nat, t: nat, item: T)
    requires ConfigOk(c) && TwoTraces(run.s, a, b, r, q, t)
    requires r + PER_BUCKET_ITEM_LIMIT * q + t < c.itemCapacity && 1 + q < c.bucketCapacity
    ensures var s' := Step(run, c, OfferOp(a, item)).s;
      if Joins(run.s, a) then s' == Join(run.s, a, item)
      else t == 0 ==> s' == AddBucket(Unindex(run.s, a), a, item)
  {
  }

  lemma TwoTracesStep<T>(c: Config, before: seq<Op<T>>, a: TraceID, b: TraceID, r: nat, q: nat, t: nat, item: T)
    returns (ops: seq<Op<T>>)
    requires ConfigOk(c) && a != b && a != NoTrace && t < PER_BUCKET_ITEM_LIMIT
    requires TwoTraces(After(c, before).s, a, b, r, q, t)
    requires r + PER_BUCKET_ITEM_LIMIT * q + t < c.itemCapacity && 1 + q < c.bucketCapacity
    ensures if t + 1 < PER_BUCKET_ITEM_LIMIT then TwoTraces(After(c, ops).s, a, b, r, q, t + 1)
            else TwoTraces(After(c, ops).s, a, b, r, q + 1, 0)
  {
    ops := before + [OfferOp(a, item)];
    AfterSnoc(c, before, OfferOp(a, item));
    var run := After(c, before);
    TwoTracesOffer(run, c, a, b, r, q, t, item);
    if t > 0 {
      TwoTracesJoin(run.s, c.bucketCapacity, a, b, r, q, t, item);
    } else {
      TwoTracesAdd(run.s, a, b, r, q, item);
    }
  }

  lemma TwoTracesStart<T>(c: Config, a: TraceID, b: TraceID, r: nat, item: T) returns (ops: seq<Op<T>>)
    requires ConfigOk(c) && a != NoTrace && b != NoTrace && a != b && 0 < r < PER_BUCKET_ITEM_LIMIT
    ensures TwoTraces(After(c, ops).s, a, b, r, 0, 0)
  {
    ops := seq(r, i => OfferOp(b, item));
    OneTraceRun(c, b, item, r);
    OneBucketTotal(After(c, ops).s.list);
  }

  lemma {:induction false} TwoTraceRun<T>(c: Config, a: TraceID, b: TraceID, r: nat, q: nat, t: nat, item: T)
    returns (ops: seq<Op<T>>)
    requires ConfigOk(c) && a != NoTrace && b != NoTrace && a != b && 0 < r < PER_BUCKET_ITEM_LIMIT
    requires r + PER_BUCKET_ITEM_LIMIT * q + t <= c.itemCapacity && t < PER_BUCKET_ITEM_LIMIT
    requires 1 + q + (if t > 0 then 1 else 0) <= c.bucketCapacity
    ensures TwoTraces(After(c, ops).s, a, b, r, q, t)
    decreases q, t
  {
    if t > 0 {
      var before := TwoTraceRun(c, a, b, r, q, t - 1, item);
      ops := TwoTracesStep(c, before, a, b, r, q, t - 1, item);
    } else if q > 0 {
      var before := TwoTraceRun(c, a, b, r, q - 1, PER_BUCKET_ITEM_LIMIT - 1, item);
      ops := TwoTracesStep(c, before, a, b, r, q - 1, PER_BUCKET_ITEM_LIMIT - 1, item);
    } else {
      ops := TwoTracesStart(c, a, b, r, item);
    }
  }

  /** Some run exceeds the capacity exactly if the buckets can hold more items than that. */
  lemma CapacityExceededIff<T(!new)>(c: Config, item: T)
    requires ConfigOk(c)
    ensures (exists ops: seq<Op<T>> :: Total(After(c, ops).s.list) > c.itemCapacity)
       <==> c.itemCapacity < c.bucketCapacity * 100
  {
    if c.itemCapacity < c.bucketCapacity * PER_BUCKET_ITEM_LIMIT {
      var a, b := TraceID("a"), TraceID("b");
      assert |a.hex| == 1 && a.hex[0] == 'a' && b.hex[0] == 'b';
      var q, r := c.itemCapacity / PER_BUCKET_ITEM_LIMIT, c.itemCapacity % PER_BUCKET_ITEM_LIMIT;
      var before: seq<Op<T>>;
      if r == 0 {
        before := TwoTraceRun(c, a, b, 1, q - 1, PER_BUCKET_ITEM_LIMIT - 1, item);
      } else {
        before := TwoTraceRun(c, a, b, r, q, 0, item);
      }
      var ops := before + [OfferOp(b, item)];
      AfterSnoc(c, before, OfferOp(b, item));
      JoinFacts(After(c, before).s, c.bucketCapacity, b, item);
      assert Total(After(c, ops).s.list) > c.itemCapacity;
    } else {
      forall ops: seq<Op<T>>
        ensures Total(After(c, ops).s.list) <= c.itemCapacity
      {
        SizeBound(c, ops);
      }
    }
  }

  /** So every buffer that the constructor builds can get larger than its capacity. */
  lemma CapacityExceeded<T(!new)>(c: Config, item: T)
    requires ConfigOk(c) && c.bucketCapacity == BucketCapacityFor(c.itemCapacity)
    ensures exists ops: seq<Op<T>> :: Total(After(c, ops).s.list) > c.itemCapacity
  {
    CapacityExceededIff(c, item);
  }

  // ---------------------------------------------------------------------------
  // Traces spread over several buckets with room
  // ---------------------------------------------------------------------------

  predicate IsOpen<T>(b: TraceBucket<T>, t: TraceID) {
    b.trace == t && |b.items| < PER_BUCKET_ITEM_LIMIT
  }

  predicate HasOpen<T>(bs: seq<TraceBucket<T>>, t: TraceID) {
    exists i :: 0 <= i < |bs| && IsOpen(bs[i], t)
  }

  /** Two buckets of one trace both have room. */
  ghost predicate Spread<T>(bs: seq<TraceBucket<T>>) {
    exists i, j :: 0 <= i < j < |bs| && bs[i].trace != NoTrace && IsOpen(bs[i], bs[i].trace) && IsOpen(bs[j], bs[i].trace)
  }

  /** Taking `n` items ends inside a full bucket, with an open one of its trace behind it. */
  predicate OpensHead<T>(bs: seq<TraceBucket<T>>, n: nat) {
    if n == 0 || bs == [] then false
    else if n < |bs[0].items| then
      |bs[0].items| >= PER_BUCKET_ITEM_LIMIT && bs[0].trace != NoTrace
      && |bs[0].items| - n < PER_BUCKET_ITEM_LIMIT && HasOpen(bs[1..], bs[0].trace)
    else OpensHead(bs[1..], n - |bs[0].items|)
  }

  /** An offer that joins no bucket although an open one of its trace stays, because the index does not
      know it; or a poll out of a full bucket. */
  predicate Spreads<T>(s: Buckets<T>, c: Config, op: Op<T>) {
    match op
    case OfferOp(trace, _) =>
      && trace != NoTrace && !Joins(s, trace) && s.list != []
      && (if IsFull(s, c) then c.policy.DropOldest? && HasOpen(s.list[1..], trace) else HasOpen(s.list, trace))
    case DrainOp => false
    case ClearOp => false
    case _ => OpensHead(s.list, TakeCount(s, c, op))
  }

  lemma SpreadTail<T>(bs: seq<TraceBucket<T>>)
    requires bs != []
    ensures Spread(bs) <==>
      (Spread(bs[1..]) || (bs[0].trace != NoTrace && IsOpen(bs[0], bs[0].trace) && HasOpen(bs[1..], bs[0].trace)))
  {
    assert bs == [bs[0]] + bs[1..];
    if Spread(bs) {
      var i, j :| 0 <= i < j < |bs| && bs[i].trace != NoTrace && IsOpen(bs[i], bs[i].trace) && IsOpen(bs[j], bs[i].trace);
      assert IsOpen(bs[1..][j - 1], bs[i].trace);
      assert i > 0 ==> IsOpen(bs[1..][i - 1], bs[i].trace);
    }
  }

  lemma AppendSpread<T>(bs: seq<TraceBucket<T>>, trace: TraceID, item: T)
    ensures var r := bs + [TraceBucket(trace, [item])];
      Spread(r) <==> Spread(bs) || (trace != NoTrace && HasOpen(bs, trace))
  {
    var r := bs + [TraceBucket(trace, [item])];
    assert IsOpen(r[|bs|], trace);
    if Spread(bs) {
      var i, j :| 0 <= i < j < |bs| && bs[i].trace != NoTrace && IsOpen(bs[i], bs[i].trace) && IsOpen(bs[j], bs[i].trace);
      assert IsOpen(r[i], r[i].trace) && IsOpen(r[j], r[i].trace);
    } else if trace != NoTrace && HasOpen(bs, trace) {
      var i :| 0 <= i < |bs| && IsOpen(bs[i], trace);
      assert IsOpen(r[i], r[i].trace) && IsOpen(r[|bs|], r[i].trace);
    }
  }

  lemma JoinSpread<T>(s: Buckets<T>, trace: TraceID, item: T)
    requires Joins(s, trace) && !Spread(s.list)
    ensures !Spread(Join(s, trace, item).list)
  {
  }

  lemma {:induction false} TakeSpread<T>(s: Buckets<T>, n: nat)
    requires n <= Total(s.list)
    ensures OpensHead(s.list, n) ==> Spread(Take(s, n).list)
    ensures Spread(Take(s, n).list) ==> OpensHead(s.list, n) || Spread(s.list)
    decreases |s.list|
  {
    if n > 0 && s.list != [] {
      SpreadTail(s.list);
      if n < |s.list[0].items| {
        var r := Take(s, n).list;
        assert r[1..] == s.list[1..];
        SpreadTail(r);
      } else {
        TakeSpread(RemoveHead(s), n - |s.list[0].items|);
      }
    }
  }

  /** A step brings about a spread trace exactly if it meets the guard. */
  lemma StepSpreadsIff<T>(r: Run<T>, c: Config, op: Op<T>)
    requires ConfigOk(c) && BucketsOk(r.s, c.bucketCapacity)
    ensures Spreads(r.s, c, op) ==> Spread(Step(r, c, op).s.list)
    ensures Spread(Step(r, c, op).s.list) ==> Spreads(r.s, c, op) || Spread(r.s.list)
  {
    match op {
      case OfferOp(trace, item) =>
        if Joins(r.s, trace) {
          if !Spread(r.s.list) {
            JoinSpread(r.s, trace, item);
          }
        } else if !IsFull(r.s, c) {
          AppendSpread(r.s.list, trace, item);
        } else if c.policy.DropOldest? {
          SpreadTail(r.s.list);
          AppendSpread(r.s.list[1..], trace, item);
        }
      case DrainOp =>
      case ClearOp =>
      case _ => TakeSpread(r.s, TakeCount(r.s, c, op));
    }
  }

  ghost predicate SpreadAt<T>(c: Config, ops: seq<Op<T>>, k: nat)
    requires ConfigOk(c) && k <= |ops|
  {
    Spread(After(c, ops[..k]).s.list)
  }

  ghost predicate SpreadsAt<T>(c: Config, ops: seq<Op<T>>, k: nat)
    requires ConfigOk(c) && k < |ops|
  {
    Spreads(After(c, ops[..k]).s, c, ops[k])
  }

  lemma SpreadStep<T>(c: Config, ops: seq<Op<T>>, k: nat)
    requires ConfigOk(c) && k < |ops|
    ensures SpreadsAt(c, ops, k) ==> SpreadAt(c, ops, k + 1)
    ensures SpreadAt(c, ops, k + 1) ==> SpreadsAt(c, ops, k) || SpreadAt(c, ops, k)
  {
    var now := ops[..k + 1];
    assert now[..k] == ops[..k] && now[k] == ops[k];
    StepSpreadsIff(After(c, ops[..k]), c, ops[k]);
  }

  lemma {:induction false} FirstSpread<T>(c: Config, ops: seq<Op<T>>, k: nat) returns (j: nat)
    requires ConfigOk(c) && k <= |ops| && SpreadAt(c, ops, k)
    ensures j < k && SpreadsAt(c, ops, j)
  {
    if k > 0 {
      SpreadStep(c, ops, k - 1);
      j := k - 1;
      if !SpreadsAt(c, ops, k - 1) {
        j := FirstSpread(c, ops, k - 1);
      }
    }
  }

  /** Two buckets of one trace have room at some point of a run exactly if some step of it met the guard. */
  lemma SpreadIff<T>(c: Config, ops: seq<Op<T>>)
    requires ConfigOk(c)
    ensures (exists k: nat :: k <= |ops| && SpreadAt(c, ops, k)) <==> (exists k: nat :: k < |ops| && SpreadsAt(c, ops, k))
  {
    if k: nat :| k <= |ops| && SpreadAt(c, ops, k) {
      var j := FirstSpread(c, ops, k);
    }
    if k: nat :| k < |ops| && SpreadsAt(c, ops, k) {
      SpreadStep(c, ops, k);
    }
  }

  /** 101 items of one trace: a full bucket and one with a single item. */
  lemma FullAndOne<T>(c: Config, trace: TraceID, item: T) returns (ops: seq<Op<T>>)
    requires ConfigOk(c) && trace != NoTrace && c.itemCapacity > PER_BUCKET_ITEM_LIMIT && c.bucketCapacity > 1
    ensures var s := After(c, ops).s;
      && |s.list| == 2 && |s.list[0].items| == PER_BUCKET_ITEM_LIMIT && s.list[0].trace == trace
      && s.list[1] == TraceBucket(trace, [item]) && s.index == map[trace := 1] && Total(s.list) == PER_BUCKET_ITEM_LIMIT + 1
  {
    var full := seq(PER_BUCKET_ITEM_LIMIT, i => OfferOp(trace, item));
    OneTraceRun(c, trace, item, PER_BUCKET_ITEM_LIMIT);
    ops := full + [OfferOp(trace, item)];
    AfterSnoc(c, full, OfferOp(trace, item));
    OneBucketTotal(After(c, full).s.list);
    TotalAppend(After(c, full).s.list, TraceBucket(trace, [item]));
  }

  lemma OneBucketTotal<T>(bs: seq<TraceBucket<T>>)
    requires |bs| == 1
    ensures Total(bs) == |bs[0].items|
  {
    assert bs[1..] == [];
  }

  /** 101 items of one trace, a poll of the full bucket, which takes the index entry of the next one
      along, and one more item: it does not join the bucket that holds a single item. */
  lemma SpreadAfterPoll<T>(c: Config, trace: TraceID, item: T) returns (ops: seq<Op<T>>)
    requires ConfigOk(c) && trace != NoTrace && c.itemCapacity > PER_BUCKET_ITEM_LIMIT && c.bucketCapacity > 1
    ensures var list := After(c, ops).s.list;
      list == [TraceBucket(trace, [item]), TraceBucket(trace, [item])] && Spread(list)
  {
    var one := TraceBucket(trace, [item]);
    var ops1 := FullAndOne(c, trace, item);
    var s1 := After(c, ops1).s;
    var ops2 := ops1 + [PollBatchOp(PER_BUCKET_ITEM_LIMIT)];
    AfterSnoc(c, ops1, PollBatchOp(PER_BUCKET_ITEM_LIMIT));
    assert After(c, ops2).s == Take(s1, PER_BUCKET_ITEM_LIMIT) == RemoveHead(s1);
    assert RemoveHead(s1) == Buckets([one], map[]);
    OneBucketTotal([one]);
    ops := ops2 + [OfferOp(trace, item)];
    AfterSnoc(c, ops2, OfferOp(trace, item));
    var list := After(c, ops).s.list;
    assert list == [one] + [one];
    assert IsOpen(list[0], trace) && IsOpen(list[1], trace);
  }
}
