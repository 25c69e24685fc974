/** RingBuffer (internal/telemetry/ring_buffer.go): a circular array proved against
    a bounded queue, and what holds of the queue in every run. */
module RingBuffers {
  import opened BufferModels
  import opened Wrappers

  const DEFAULT_CAPACITY: nat := 100

  /** The live part of a circular array, from `head`, is the queue. */
  ghost predicate HoldsQueue<T>(items: seq<T>, head: nat, q: seq<T>)
    requires head + |q| <= 2 * |items| && head <= |items|
  {
    forall i :: 0 <= i < |q| ==> items[Wrap(head + i, |items|)] == q[i]
  }

  lemma PutAtTail<T>(items: seq<T>, head: nat, q: seq<T>, x: T)
    requires head < |items| && |q| < |items| && HoldsQueue(items, head, q)
    ensures HoldsQueue(items[Wrap(head + |q|, |items|) := x], head, q + [x])
  {
  }

  lemma TakeAtHead<T>(items: seq<T>, head: nat, q: seq<T>, x: T)
    requires head < |items| && 0 < |q| <= |items| && HoldsQueue(items, head, q)
    ensures items[head] == q[0]
    ensures HoldsQueue(items[head := x], Wrap(head + 1, |items|), q[1..])
  {
    assert items[Wrap(head + 0, |items|)] == q[0];
    forall i | 0 <= i < |q| - 1
      ensures items[head := x][Wrap(Wrap(head + 1, |items|) + i, |items|)] == q[1..][i]
    {
      assert items[Wrap(head + (i + 1), |items|)] == q[i + 1];
    }
  }

  lemma ReplaceOldest<T>(items: seq<T>, head: nat, q: seq<T>, x: T)
    requires head < |items| && |q| == |items| && HoldsQueue(items, head, q)
    ensures HoldsQueue(items[head := x], Wrap(head + 1, |items|), q[1..] + [x])
  {
    TakeAtHead(items, head, q, x);
  }

  class RingBuffer<T> {
    const items: array<T>
    var head: nat
    var tail: nat
    var size: nat
    const capacity: nat
    /** The zero value that vacated slots are overwritten with. */
    const zero: T
    const overflowPolicy: OverflowPolicy
    const batchSize: nat
    const timeout: int
    var lastFlushTime: int
    var offered: nat
    var dropped: nat
    /** What was reported to the client-report recorder, oldest first. */
    var recorded: seq<T>
    ghost var queue: seq<T>

    ghost predicate Valid()
      reads this, items
    {
      && items.Length == capacity && capacity > 0 && batchSize > 0
      && head < capacity && size <= capacity && size == |queue|
      && tail == Wrap(head + size, capacity)
      && HoldsQueue(items[..], head, queue)
      && dropped == |recorded|
    }

    constructor (zero: T, capacity: int, overflowPolicy: OverflowPolicy, batchSize: int, timeout: int, now: int)
      ensures Valid() && fresh(items)
      ensures queue == [] && offered == 0 && recorded == []
      ensures this.capacity == (if capacity <= 0 then DEFAULT_CAPACITY else capacity)
      ensures this.batchSize == (if batchSize <= 0 then 1 else batchSize)
      ensures this.timeout == (if timeout < 0 then 0 else timeout)
      ensures this.overflowPolicy == overflowPolicy && lastFlushTime == now
    {
      var cap: nat := if capacity <= 0 then DEFAULT_CAPACITY else capacity;
      this.capacity := cap;
      this.batchSize := if batchSize <= 0 then 1 else batchSize;
      this.timeout := if timeout < 0 then 0 else timeout;
      this.overflowPolicy := overflowPolicy;
      this.zero := zero;
      items := new T[cap](i => zero);
      head, tail, size := 0, 0, 0;
      lastFlushTime, offered, dropped, recorded, queue := now, 0, 0, [], [];
    }

    /** The lines of Offer that append to a buffer with room. */
    method PutItem(item: T)
      requires Valid() && size < capacity
      modifies this`tail, this`size, this`queue, items
      ensures Valid() && queue == old(queue) + [item]
    {
      ghost var before := items[..];
      PutAtTail(items[..], head, queue, item);
      WrapIsMod(tail + 1, capacity);
      items[tail] := item;
      assert items[..] == before[tail := item];
      tail := (tail + 1) % capacity;
      size := size + 1;
      queue := queue + [item];
    }

    /** The lines of Offer that overwrite the oldest item of a full buffer. */
    method OverwriteOldest(item: T) returns (oldItem: T)
      requires Valid() && size == capacity
      modifies this`head, this`tail, this`queue, items
      ensures Valid() && oldItem == old(queue)[0] && queue == old(queue)[1..] + [item]
    {
      ghost var before := items[..];
      oldItem := items[head];
      TakeAtHead(items[..], head, queue, item);
      ReplaceOldest(items[..], head, queue, item);
      WrapIsMod(head + 1, capacity);
      WrapIsMod(tail + 1, capacity);
      items[head] := item;
      assert items[..] == before[head := item];
      head := (head + 1) % capacity;
      tail := (tail + 1) % capacity;
      queue := queue[1..] + [item];
    }

    method Offer(item: T) returns (accepted: bool)
      requires Valid()
      modifies this, items
      ensures Valid() && offered == old(offered) + 1 && lastFlushTime == old(lastFlushTime)
      ensures var o := RingOffer(old(queue), capacity, overflowPolicy, item);
        queue == o.state && accepted == o.accepted && recorded == old(recorded) + o.dropped
    {
      offered := offered + 1;
      if size < capacity {
        PutItem(item);
        return true;
      }
      match overflowPolicy {
        case DropOldest =>
          var oldItem := OverwriteOldest(item);
          dropped := dropped + 1;
          recorded := recorded + [oldItem];
          return true;
        case _ =>
          dropped := dropped + 1;
          recorded := recorded + [item];
          return false;
      }
    }

    /** The lines that take one item from the head, shared by Poll and the copy loops. */
    method TakeOne() returns (item: T)
      requires Valid() && size > 0
      modifies this`head, this`size, this`queue, items
      ensures Valid() && item == old(queue)[0] && queue == old(queue)[1..]
    {
      ghost var before := items[..];
      TakeAtHead(items[..], head, queue, zero);
      WrapIsMod(head + 1, capacity);
      item := items[head];
      items[head] := zero;
      assert items[..] == before[head := zero];
      head := (head + 1) % capacity;
      size := size - 1;
      queue := queue[1..];
    }

    method Poll() returns (r: Option<T>)
      requires Valid()
      modifies this, items
      ensures Valid() && offered == old(offered) && recorded == old(recorded) && lastFlushTime == old(lastFlushTime)
      ensures if old(queue) == [] then r == None && queue == []
              else r == Some(old(queue)[0]) && queue == old(queue)[1..]
    {
      if size == 0 {
        return None;
      }
      var item := TakeOne();
      return Some(item);
    }

    /** The copy loop of PollBatch and PollIfReady. */
    method TakeMany(itemCount: nat) returns (result: seq<T>)
      requires Valid() && itemCount <= size
      modifies this`head, this`size, this`queue, items
      ensures Valid() && result == old(queue)[..itemCount] && queue == old(queue)[itemCount..]
    {
      result := [];
      for i := 0 to itemCount
        invariant Valid() && result == old(queue)[..i] && queue == old(queue)[i..]
      {
        var item := TakeOne();
        result := result + [item];
      }
    }

    method PollBatch(maxItems: int) returns (result: seq<T>)
      requires Valid()
      modifies this, items
      ensures Valid() && offered == old(offered) && recorded == old(recorded) && lastFlushTime == old(lastFlushTime)
      ensures var n := if maxItems <= 0 then 0 else Min(maxItems, |old(queue)|);
        result == old(queue)[..n] && queue == old(queue)[n..]
    {
      if maxItems <= 0 || size == 0 {
        return [];
      }
      var itemCount := maxItems;
      if itemCount > size {
        itemCount := size;
      }
      result := TakeMany(itemCount);
    }

    method PollIfReady(now: int) returns (result: seq<T>)
      requires Valid()
      modifies this, items
      ensures Valid() && offered == old(offered) && recorded == old(recorded)
      ensures var ready := old(queue) != []
          && (|old(queue)| >= batchSize || (timeout > 0 && now - old(lastFlushTime) >= timeout));
        var n := if ready then Min(batchSize, |old(queue)|) else 0;
        && result == old(queue)[..n] && queue == old(queue)[n..]
        && lastFlushTime == if ready then now else old(lastFlushTime)
    {
      if size == 0 {
        return [];
      }
      var ready := size >= batchSize || (timeout > 0 && now - lastFlushTime >= timeout);
      if !ready {
        return [];
      }
      var itemCount := batchSize;
      if itemCount > size {
        itemCount := size;
      }
      result := TakeMany(itemCount);
      lastFlushTime := now;
    }

    method Drain() returns (result: seq<T>)
      requires Valid()
      modifies this, items
      ensures Valid() && offered == old(offered) && recorded == old(recorded) && lastFlushTime == old(lastFlushTime)
      ensures result == old(queue) && queue == []
    {
      result := [];
      if size == 0 {
        return;
      }
      for i := 0 to size
        invariant result == queue[..i]
        invariant forall k {:trigger queue[k]} :: i <= k < size ==> items[..][Wrap(head + k, capacity)] == queue[k]
        modifies items
      {
        WrapIsMod(head + i, capacity);
        var pos := (head + i) % capacity;
        ghost var before := items[..];
        result := result + [items[pos]];
        assert items[pos] == queue[i];
        items[pos] := zero;
        assert items[..] == before[pos := zero];
      }
      head, tail, size, queue := 0, 0, 0, [];
    }

    method Clear()
      requires Valid()
      modifies this, items
      ensures Valid() && offered == old(offered) && recorded == old(recorded) && lastFlushTime == old(lastFlushTime)
      ensures queue == []
    {
      for i := 0 to capacity
        modifies items
      {
        items[i] := zero;
      }
      head, tail, size, queue := 0, 0, 0, [];
    }

    method IsReadyToFlush(now: int) returns (ready: bool)
      requires Valid()
      ensures ready == (queue != [] && (|queue| >= batchSize || (timeout > 0 && now - lastFlushTime >= timeout)))
    {
      if size == 0 {
        return false;
      }
      if size >= batchSize {
        return true;
      }
      return timeout > 0 && now - lastFlushTime >= timeout;
    }
  }

  // ---------------------------------------------------------------------------
  // Every run
  // ---------------------------------------------------------------------------

  datatype Op<T> = OfferOp(item: T) | TakeOp(count: nat) | ClearOp

  datatype Fate = HandedOut | Dropped | Cleared

  /** The queue, the accepted items, the items that left with their fate, and the counters. */
  datatype Run<T> = Run(q: seq<T>, accepted: seq<T>, left: seq<(T, Fate)>, offered: nat, dropped: nat, refused: nat)

  function Tag<T>(items: seq<T>, fate: Fate): (r: seq<(T, Fate)>)
    ensures |r| == |items|
    ensures forall i :: 0 <= i < |items| ==> r[i] == (items[i], fate)
  {
    seq(|items|, i requires 0 <= i < |items| => (items[i], fate))
  }

  /** Poll, PollBatch, PollIfReady and Drain all take some number of items from the front. */
  function Step<T>(r: Run<T>, capacity: nat, policy: OverflowPolicy, op: Op<T>): (r': Run<T>)
    requires |r.q| <= capacity && capacity > 0
    ensures |r'.q| <= capacity
  {
    match op
    case OfferOp(item) =>
      var o := RingOffer(r.q, capacity, policy, item);
      if o.accepted then
        r.(q := o.state, accepted := r.accepted + [item], left := r.left + Tag(o.dropped, Dropped),
           offered := r.offered + 1, dropped := r.dropped + |o.dropped|)
      else r.(q := o.state, offered := r.offered + 1, dropped := r.dropped + |o.dropped|, refused := r.refused + 1)
    case TakeOp(count) =>
      var n := Min(count, |r.q|);
      r.(q := r.q[n..], left := r.left + Tag(r.q[..n], HandedOut))
    case ClearOp => r.(q := [], left := r.left + Tag(r.q, Cleared))
  }

  ghost function After<T>(capacity: nat, policy: OverflowPolicy, ops: seq<Op<T>>): (r: Run<T>)
    requires capacity > 0
    ensures |r.q| <= capacity
    decreases |ops|
  {
    if ops == [] then Run([], [], [], 0, 0, 0)
    else Step(After(capacity, policy, ops[..|ops| - 1]), capacity, policy, ops[|ops| - 1])
  }

  function Count<T>(left: seq<(T, Fate)>, fate: Fate): nat {
    if left == [] then 0 else (if left[0].1 == fate then 1 else 0) + Count(left[1..], fate)
  }

  lemma {:induction false} CountConcat<T>(a: seq<(T, Fate)>, b: seq<(T, Fate)>, fate: Fate)
    ensures Count(a + b, fate) == Count(a, fate) + Count(b, fate)
  {
    if a == [] {
      assert a + b == b;
    } else {
      assert (a + b)[1..] == a[1..] + b;
      CountConcat(a[1..], b, fate);
    }
  }

  lemma {:induction false} CountTag<T>(items: seq<T>, fate: Fate, f: Fate)
    ensures Count(Tag(items, fate), f) == if f == fate then |items| else 0
  {
    if items != [] {
      assert Tag(items, fate)[1..] == Tag(items[1..], fate);
      CountTag(items[1..], fate, f);
    }
  }

  /** What an operation takes off the front of the accepted items, and why. */
  function Gone<T>(r: Run<T>, capacity: nat, policy: OverflowPolicy, op: Op<T>): (seq<T>, Fate)
    requires |r.q| <= capacity && capacity > 0
  {
    match op
    case OfferOp(item) =>
      var o := RingOffer(r.q, capacity, policy, item);
      (if o.accepted then o.dropped else [], Dropped)
    case TakeOp(count) => (r.q[..Min(count, |r.q|)], HandedOut)
    case ClearOp => (r.q, Cleared)
  }

  ghost predicate InOrder<T>(r: Run<T>) {
    && |r.accepted| == |r.left| + |r.q|
    && (forall i :: 0 <= i < |r.left| ==> r.accepted[i] == r.left[i].0)
    && (forall i :: 0 <= i < |r.q| ==> r.accepted[|r.left| + i] == r.q[i])
  }

  lemma OfferInOrder<T>(r: Run<T>, capacity: nat, policy: OverflowPolicy, item: T)
    requires |r.q| <= capacity && capacity > 0 && InOrder(r)
    ensures InOrder(Step(r, capacity, policy, OfferOp(item)))
  {
  }

  lemma TakeInOrder<T>(r: Run<T>, n: nat, fate: Fate)
    requires n <= |r.q| && InOrder(r)
    ensures InOrder(r.(q := r.q[n..], left := r.left + Tag(r.q[..n], fate)))
  {
    var left := r.left + Tag(r.q[..n], fate);
    forall i | 0 <= i < |left|
      ensures r.accepted[i] == left[i].0
    {
      if i >= |r.left| {
        assert r.accepted[|r.left| + (i - |r.left|)] == r.q[i - |r.left|];
      }
    }
    forall i | 0 <= i < |r.q| - n
      ensures r.accepted[|left| + i] == r.q[n..][i]
    {
      assert r.accepted[|r.left| + (n + i)] == r.q[n + i];
    }
  }

  lemma StepInOrder<T>(r: Run<T>, capacity: nat, policy: OverflowPolicy, op: Op<T>)
    requires |r.q| <= capacity && capacity > 0 && InOrder(r)
    ensures InOrder(Step(r, capacity, policy, op))
  {
    match op {
      case OfferOp(item) => OfferInOrder(r, capacity, policy, item);
      case TakeOp(count) => TakeInOrder(r, Min(count, |r.q|), HandedOut);
      case ClearOp =>
        TakeInOrder(r, |r.q|, Cleared);
        assert r.q[|r.q|..] == [] && r.q[..|r.q|] == r.q;
    }
  }

  ghost predicate Balanced<T>(r: Run<T>) {
    && r.offered == |r.q| + Count(r.left, HandedOut) + r.dropped + Count(r.left, Cleared)
    && r.dropped == Count(r.left, Dropped) + r.refused
  }

  lemma CountLeft<T>(r: Run<T>, capacity: nat, policy: OverflowPolicy, op: Op<T>, f: Fate)
    requires |r.q| <= capacity && capacity > 0
    ensures var (gone, fate) := Gone(r, capacity, policy, op);
      Count(Step(r, capacity, policy, op).left, f) == Count(r.left, f) + if f == fate then |gone| else 0
  {
    var (gone, fate) := Gone(r, capacity, policy, op);
    CountConcat(r.left, Tag(gone, fate), f);
    CountTag(gone, fate, f);
    var r' := Step(r, capacity, policy, op);
    assert r'.left == r.left || r'.left == r.left + Tag(gone, fate);
  }

  lemma StepBalanced<T>(r: Run<T>, capacity: nat, policy: OverflowPolicy, op: Op<T>)
    requires |r.q| <= capacity && capacity > 0 && Balanced(r)
    ensures Balanced(Step(r, capacity, policy, op))
  {
    CountLeft(r, capacity, policy, op, HandedOut);
    CountLeft(r, capacity, policy, op, Dropped);
    CountLeft(r, capacity, policy, op, Cleared);
  }

  /** In every run, the accepted items are the items that left, in the order in which
      they left, followed by the queue; and the counters account for every offer. */
  lemma {:induction false} RingRuns<T>(capacity: nat, policy: OverflowPolicy, ops: seq<Op<T>>)
    requires capacity > 0
    ensures InOrder(After(capacity, policy, ops)) && Balanced(After(capacity, policy, ops))
    decreases |ops|
  {
    if ops != [] {
      var r := After(capacity, policy, ops[..|ops| - 1]);
      RingRuns(capacity, policy, ops[..|ops| - 1]);
      StepInOrder(r, capacity, policy, ops[|ops| - 1]);
      StepBalanced(r, capacity, policy, ops[|ops| - 1]);
    }
  }

  /** Dropping the oldest never refuses an offer; the other policies never take back what they accepted. */
  ghost predicate KeepsPolicy<T>(r: Run<T>, policy: OverflowPolicy) {
    && (policy.DropOldest? ==> r.refused == 0 && |r.accepted| == r.offered)
    && (!policy.DropOldest? ==> Count(r.left, Dropped) == 0)
  }

  lemma StepKeepsPolicy<T>(r: Run<T>, capacity: nat, policy: OverflowPolicy, op: Op<T>)
    requires |r.q| <= capacity && capacity > 0 && KeepsPolicy(r, policy)
    ensures KeepsPolicy(Step(r, capacity, policy, op), policy)
  {
    CountLeft(r, capacity, policy, op, Dropped);
  }

  /** The overflow policy in every run. */
  lemma {:induction false} PolicyRuns<T>(capacity: nat, policy: OverflowPolicy, ops: seq<Op<T>>)
    requires capacity > 0
    ensures KeepsPolicy(After(capacity, policy, ops), policy)
    decreases |ops|
  {
    if ops != [] {
      PolicyRuns(capacity, policy, ops[..|ops| - 1]);
      StepKeepsPolicy(After(capacity, policy, ops[..|ops| - 1]), capacity, policy, ops[|ops| - 1]);
    }
  }

  /** An offer that overflows costs the oldest item under DropOldest and the new one otherwise; one that
      does not costs nothing. */
  lemma OfferCosts<T>(q: seq<T>, capacity: nat, policy: OverflowPolicy, item: T)
    requires |q| <= capacity && capacity > 0
    ensures var o := RingOffer(q, capacity, policy, item);
      && (|q| == capacity <==> |o.dropped| == 1) && (|q| < capacity <==> o.dropped == [])
      && (o.accepted ==> o.dropped + o.state == q + [item])
      && (!o.accepted ==> o.state == q && o.dropped == [item] && !policy.DropOldest?)
      && (policy.DropOldest? ==> o.accepted) && (o.accepted && |q| == capacity ==> policy.DropOldest?)
  {
  }
}
