/** Any sequence of calls on a BucketedBuffer is a run of the list of buckets. */
module BucketClients {
  import opened BufferModels
  import opened BucketedBuffers
  import opened BucketRuns
  import opened Wrappers

  datatype Call<T> =
    | OfferCall(trace: TraceID, item: T)
    | PollCall
    | PollBatchCall(maxItems: int)
    | PollIfReadyCall(now: int)
    | DrainCall
    | ClearCall

  /** The items that were handed out, oldest first. */
  function HandedOver<T>(log: seq<Chunk<T>>): seq<T> {
    if log == [] then [] else (if log[0].fate.HandedOut? then log[0].bucket.items else []) + HandedOver(log[1..])
  }

  lemma {:induction false} HandedOverConcat<T>(a: seq<Chunk<T>>, b: seq<Chunk<T>>)
    ensures HandedOver(a + b) == HandedOver(a) + HandedOver(b)
  {
    if a == [] {
      assert a + b == b;
    } else {
      assert (a + b)[1..] == a[1..] + b;
      HandedOverConcat(a[1..], b);
    }
  }

  lemma {:induction false} HandedOverChunks<T>(bs: seq<TraceBucket<T>>, fate: Fate)
    ensures HandedOver(Chunks(bs, fate)) == if fate.HandedOut? then Flatten(bs) else []
  {
    if bs != [] {
      HandedOverChunks(bs[1..], fate);
    }
  }

  /** What an operation hands out. */
  function HandsOut<T>(s: Buckets<T>, c: Config, op: Op<T>): seq<T> {
    match op
    case OfferOp(_, _) => []
    case ClearOp => []
    case DrainOp => Flatten(s.list)
    case _ => Flatten(s.list)[..TakeCount(s, c, op)]
  }

  lemma OfferHandsNothing<T>(r: Run<T>, c: Config, trace: TraceID, item: T)
    requires ConfigOk(c)
    ensures HandedOver(Step(r, c, OfferOp(trace, item)).log) == HandedOver(r.log)
  {
    var log := Step(r, c, OfferOp(trace, item)).log;
    if log != r.log {
      assert r.log + [] == r.log;
      HandedOverConcat(r.log, log[|r.log|..]);
      assert log == r.log + log[|r.log|..];
    }
  }

  lemma StepHandsOver<T>(r: Run<T>, c: Config, op: Op<T>)
    requires ConfigOk(c)
    ensures HandedOver(Step(r, c, op).log) == HandedOver(r.log) + HandsOut(r.s, c, op)
  {
    match op {
      case OfferOp(trace, item) => OfferHandsNothing(r, c, trace, item);
      case DrainOp =>
        HandedOverConcat(r.log, Chunks(r.s.list, HandedOut));
        HandedOverChunks(r.s.list, HandedOut);
      case ClearOp =>
        HandedOverConcat(r.log, Chunks(r.s.list, Cleared));
        HandedOverChunks(r.s.list, Cleared);
      case _ =>
        var n := TakeCount(r.s, c, op);
        HandedOverConcat(r.log, Chunks(TakenChunks(r.s, n), HandedOut));
        HandedOverChunks(TakenChunks(r.s, n), HandedOut);
        TakenFlat(r.s, n);
    }
  }

  ghost function ConfigOf<T>(b: BucketedBuffer<T>): Config {
    Config(b.itemCapacity, b.bucketCapacity, b.overflowPolicy, b.batchSize)
  }

  /** The buffer is in the state that the run has led to. */
  ghost predicate Follows<T>(b: BucketedBuffer<T>, r: Run<T>)
    reads b, b.buckets
  {
    b.Valid() && b.model == r.s && b.offered == r.offered && b.dropped == r.dropped
  }

  ghost predicate SameKind<T>(call: Call<T>, op: Op<T>) {
    match call
    case OfferCall(trace, item) => op == OfferOp(trace, item)
    case PollCall => op == PollOp
    case PollBatchCall(maxItems) => op == PollBatchOp(maxItems)
    case PollIfReadyCall(_) => op.PollIfReadyOp?
    case DrainCall => op == DrainOp
    case ClearCall => op == ClearOp
  }

  /** Taking the head bucket as a whole. */
  lemma TakeHead<T>(s: Buckets<T>)
    requires s.list != [] && s.list[0].items != []
    ensures |s.list[0].items| <= Total(s.list) && Take(s, |s.list[0].items|) == RemoveHead(s)
    ensures Flatten(s.list)[..|s.list[0].items|] == s.list[0].items
  {
  }

  lemma FirstItem<T>(s: Buckets<T>)
    requires s.list != [] && s.list[0].items != []
    ensures Total(s.list) > 0 && Flatten(s.list)[..1] == [s.list[0].items[0]]
  {
  }

  /** One call is one step. */
  method Perform<T>(b: BucketedBuffer<T>, call: Call<T>, ghost r: Run<T>) returns (handed: seq<T>, ghost op: Op<T>)
    requires Follows(b, r)
    modifies b, b.buckets
    ensures ConfigOk(ConfigOf(b)) && Follows(b, Step(r, ConfigOf(b), op)) && SameKind(call, op)
    ensures handed == HandsOut(r.s, ConfigOf(b), op)
  {
    handed := [];
    match call {
      case OfferCall(trace, item) =>
        op := OfferOp(trace, item);
        var accepted := b.Offer(item, trace);
      case PollCall =>
        op := PollOp;
        handed := PerformPoll(b, r);
      case PollBatchCall(maxItems) =>
        op := PollBatchOp(maxItems);
        handed := b.PollBatch(maxItems);
      case PollIfReadyCall(now) =>
        handed, op := PerformPollIfReady(b, now, r);
      case DrainCall =>
        op := DrainOp;
        handed := b.Drain();
      case ClearCall =>
        op := ClearOp;
        b.Clear();
    }
  }

  method PerformPoll<T>(b: BucketedBuffer<T>, ghost r: Run<T>) returns (handed: seq<T>)
    requires Follows(b, r)
    modifies b, b.buckets
    ensures ConfigOk(ConfigOf(b)) && Follows(b, Step(r, ConfigOf(b), PollOp))
    ensures handed == HandsOut(r.s, ConfigOf(b), PollOp)
  {
    if b.bucketCount > 0 {
      FirstItem(b.model);
    }
    var first := b.Poll();
    handed := if first.Some? then [first.value] else [];
  }

  method PerformPollIfReady<T>(b: BucketedBuffer<T>, now: int, ghost r: Run<T>)
    returns (handed: seq<T>, ghost op: Op<T>)
    requires Follows(b, r)
    modifies b, b.buckets
    ensures ConfigOk(ConfigOf(b)) && op.PollIfReadyOp? && Follows(b, Step(r, ConfigOf(b), op))
    ensures handed == HandsOut(r.s, ConfigOf(b), op)
  {
    op := PollIfReadyOp(b.timeout > 0 && now - b.lastFlushTime >= b.timeout);
    if b.bucketCount > 0 {
      TakeHead(b.model);
    }
    handed := b.PollIfReady(now);
  }

  lemma RunGoesOn<T>(c: Config, ops: seq<Op<T>>, op: Op<T>)
    requires ConfigOk(c)
    ensures After(c, ops + [op]) == Step(After(c, ops), c, op)
    ensures HandedOver(After(c, ops + [op]).log) == HandedOver(After(c, ops).log) + HandsOut(After(c, ops).s, c, op)
  {
    AfterSnoc(c, ops, op);
    StepHandsOver(After(c, ops), c, op);
  }

  /** The buffer, and what it has handed out, are where the operations lead. */
  ghost predicate Reached<T>(b: BucketedBuffer<T>, ops: seq<Op<T>>, handed: seq<T>)
    reads b, b.buckets
  {
    && ConfigOk(ConfigOf(b)) && Follows(b, After(ConfigOf(b), ops))
    && handed == HandedOver(After(ConfigOf(b), ops).log)
  }

  method PerformNext<T>(b: BucketedBuffer<T>, call: Call<T>, ghost ops: seq<Op<T>>, handed: seq<T>)
    returns (more: seq<T>, ghost op: Op<T>)
    requires Reached(b, ops, handed)
    modifies b, b.buckets
    ensures Reached(b, ops + [op], handed + more) && SameKind(call, op)
  {
    ghost var r := After(ConfigOf(b), ops);
    more, op := Perform(b, call, r);
    RunGoesOn(ConfigOf(b), ops, op);
  }

  /** Any calls on a new buffer: it is where the run leads, and what was handed out is the handed-out
      part of the run, so that PerTraceFifo says in which order the items of a trace came. */
  method PerformAll<T>(b: BucketedBuffer<T>, calls: seq<Call<T>>) returns (handed: seq<T>, ghost ops: seq<Op<T>>)
    requires b.Valid() && b.model == Buckets([], map[]) && b.offered == 0 && b.recorded == []
    modifies b, b.buckets
    ensures |ops| == |calls| && forall i :: 0 <= i < |calls| ==> SameKind(calls[i], ops[i])
    ensures Reached(b, ops, handed)
  {
    handed, ops := [], [];
    for i := 0 to |calls|
      invariant |ops| == i && forall k :: 0 <= k < i ==> SameKind(calls[k], ops[k])
      invariant Reached(b, ops, handed)
    {
      var more, op := PerformNext(b, calls[i], ops, handed);
      handed, ops := handed + more, ops + [op];
    }
  }
}
