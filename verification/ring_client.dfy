/** Any sequence of calls on a RingBuffer is a run of the bounded queue. */
module RingClients {
  import opened BufferModels
  import opened RingBuffers
  import opened Wrappers

  datatype Call<T> =
    | OfferCall(item: T)
    | PollCall
    | PollBatchCall(maxItems: int)
    | PollIfReadyCall(now: int)
    | DrainCall
    | ClearCall

  /** The items that were handed out, oldest first. */
  function HandedOver<T>(left: seq<(T, Fate)>): seq<T> {
    if left == [] then [] else HandedItem(left[0]) + HandedOver(left[1..])
  }

  function HandedItem<T>(x: (T, Fate)): seq<T> {
    if x.1.HandedOut? then [x.0] else []
  }

  lemma {:induction false} HandedOverConcat<T>(a: seq<(T, Fate)>, b: seq<(T, Fate)>)
    ensures HandedOver(a + b) == HandedOver(a) + HandedOver(b)
  {
    if a == [] {
      assert a + b == b;
    } else {
      assert (a + b)[0] == a[0] && (a + b)[1..] == a[1..] + b;
      HandedOverConcat(a[1..], b);
      assert HandedItem(a[0]) + (HandedOver(a[1..]) + HandedOver(b)) == HandedOver(a) + HandedOver(b);
    }
  }

  lemma {:induction false} HandedOverTag<T>(items: seq<T>, fate: Fate)
    ensures HandedOver(Tag(items, fate)) == if fate.HandedOut? then items else []
  {
    if items != [] {
      assert Tag(items, fate)[1..] == Tag(items[1..], fate);
      HandedOverTag(items[1..], fate);
    }
  }

  lemma StepHandsOver<T>(r: Run<T>, capacity: nat, policy: OverflowPolicy, op: Op<T>)
    requires |r.q| <= capacity && capacity > 0
    ensures HandedOver(Step(r, capacity, policy, op).left)
      == HandedOver(r.left) + if op.TakeOp? then r.q[..Min(op.count, |r.q|)] else []
  {
    var (gone, fate) := Gone(r, capacity, policy, op);
    HandedOverConcat(r.left, Tag(gone, fate));
    HandedOverTag(gone, fate);
    var r' := Step(r, capacity, policy, op);
    assert r'.left == r.left || r'.left == r.left + Tag(gone, fate);
  }

  /** The buffer is in the state that the run has led to. */
  ghost predicate Follows<T>(b: RingBuffer<T>, r: Run<T>)
    reads b, b.items
  {
    b.Valid() && b.queue == r.q && b.offered == r.offered && b.dropped == r.dropped
  }

  /** One call is one step. */
  method Perform<T>(b: RingBuffer<T>, call: Call<T>, ghost r: Run<T>) returns (handed: seq<T>, ghost op: Op<T>)
    requires Follows(b, r)
    modifies b, b.items
    ensures Follows(b, Step(r, b.capacity, b.overflowPolicy, op))
    ensures SameKind(call, op)
    ensures handed == if op.TakeOp? then r.q[..Min(op.count, |r.q|)] else []
  {
    handed := [];
    match call {
      case OfferCall(item) =>
        op := OfferOp(item);
        var accepted := b.Offer(item);
      case PollCall =>
        op := TakeOp(1);
        var first := b.Poll();
        if first.Some? {
          handed := [first.value];
        }
      case PollBatchCall(maxItems) =>
        op := TakeOp(if maxItems <= 0 then 0 else maxItems);
        handed := b.PollBatch(maxItems);
      case PollIfReadyCall(now) =>
        handed := b.PollIfReady(now);
        op := TakeOp(|handed|);
      case DrainCall =>
        op := TakeOp(|r.q|);
        handed := b.Drain();
      case ClearCall =>
        op := ClearOp;
        b.Clear();
    }
  }

  lemma AfterSnoc<T>(capacity: nat, policy: OverflowPolicy, ops: seq<Op<T>>, op: Op<T>)
    requires capacity > 0
    ensures After(capacity, policy, ops + [op]) == Step(After(capacity, policy, ops), capacity, policy, op)
  {
    assert (ops + [op])[..|ops|] == ops;
  }

  lemma RunGoesOn<T>(capacity: nat, policy: OverflowPolicy, ops: seq<Op<T>>, op: Op<T>)
    requires capacity > 0
    ensures var r := After(capacity, policy, ops);
      && After(capacity, policy, ops + [op]) == Step(r, capacity, policy, op)
      && HandedOver(After(capacity, policy, ops + [op]).left)
         == HandedOver(r.left) + if op.TakeOp? then r.q[..Min(op.count, |r.q|)] else []
  {
    AfterSnoc(capacity, policy, ops, op);
    StepHandsOver(After(capacity, policy, ops), capacity, policy, op);
  }

  /** The buffer, and what it has handed out, are where the operations lead. */
  ghost predicate Reached<T>(b: RingBuffer<T>, ops: seq<Op<T>>, handed: seq<T>)
    reads b, b.items
  {
    && b.capacity > 0 && Follows(b, After(b.capacity, b.overflowPolicy, ops))
    && handed == HandedOver(After(b.capacity, b.overflowPolicy, ops).left)
  }

  ghost predicate SameKind<T>(call: Call<T>, op: Op<T>) {
    match call
    case OfferCall(item) => op == OfferOp(item)
    case PollCall => op == TakeOp(1)
    case PollBatchCall(maxItems) => op == TakeOp(if maxItems <= 0 then 0 else maxItems)
    case PollIfReadyCall(_) => op.TakeOp?
    case DrainCall => op.TakeOp?
    case ClearCall => op == ClearOp
  }

  method PerformNext<T>(b: RingBuffer<T>, call: Call<T>, ghost ops: seq<Op<T>>, handed: seq<T>)
    returns (more: seq<T>, ghost op: Op<T>)
    requires Reached(b, ops, handed)
    modifies b, b.items
    ensures Reached(b, ops + [op], handed + more) && SameKind(call, op)
  {
    ghost var r := After(b.capacity, b.overflowPolicy, ops);
    more, op := Perform(b, call, r);
    RunGoesOn(b.capacity, b.overflowPolicy, ops, op);
  }

  /** Any calls on a new buffer: it is where the run leads, and what was handed out is the handed-out
      part of the run, so that RingRuns says in which order it came. */
  method PerformAll<T>(b: RingBuffer<T>, calls: seq<Call<T>>) returns (handed: seq<T>, ghost ops: seq<Op<T>>)
    requires b.Valid() && b.queue == [] && b.offered == 0 && b.recorded == []
    modifies b, b.items
    ensures |ops| == |calls| && forall i :: 0 <= i < |calls| ==> SameKind(calls[i], ops[i])
    ensures Reached(b, ops, handed)
  {
    handed, ops := [], [];
    for i := 0 to |calls|
      invariant |ops| == i && forall k :: 0 <= k < i ==> SameKind(calls[k], ops[k])
      invariant Reached(b, ops, handed)
    {
      var more, op := PerformNext(b, calls[i], ops, handed);
      handed, ops := handed + more, ops + [op];
    }
  }
}
