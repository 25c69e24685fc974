/** BucketedBuffer (internal/telemetry/bucketed_buffer.go): a circular array of
    buckets with a trace index, proved against the list of buckets of
    BufferModels.  Clock readings are parameters. */
module BucketedBuffers {
  import opened BufferModels
  import opened Wrappers

  const DEFAULT_BUCKETED_CAPACITY: nat := 100

  // ---------------------------------------------------------------------------
  // How the fields represent a list of buckets
  // ---------------------------------------------------------------------------

  /** The fields of the buffer that change with its contents. */
  datatype Fields<T> = Fields(
    slots: seq<Option<TraceBucket<T>>>, index: map<TraceID, nat>, head: nat, tail: nat, count: nat, total: nat)

  /** From position `from` on, the slots after `head` hold the buckets of the list. */
  ghost predicate SlotsAgreeFrom<T>(slots: seq<Option<TraceBucket<T>>>, head: nat, list: seq<TraceBucket<T>>, from: nat)
    requires head + |list| <= 2 * |slots| && head <= |slots|
  {
    forall i :: from <= i < |list| ==> slots[Wrap(head + i, |slots|)] == Some(list[i])
  }

  ghost predicate SlotsAgree<T>(f: Fields<T>, m: Buckets<T>)
    requires f.head + f.count <= 2 * |f.slots| && f.head <= |f.slots| && f.count == |m.list|
  {
    SlotsAgreeFrom(f.slots, f.head, m.list, 0)
  }

  /** The program's index is the model's, with slots for positions. */
  ghost predicate IndexAgrees<T>(f: Fields<T>, m: Buckets<T>) {
    && f.index.Keys == m.index.Keys
    && forall t <- f.index :: 0 <= m.index[t] < f.count && f.index[t] == Wrap(f.head + m.index[t], |f.slots|)
  }

  ghost predicate Represents<T>(f: Fields<T>, m: Buckets<T>) {
    var n := |f.slots|;
    && n > 0 && f.head < n && f.count <= n
    && f.tail == Wrap(f.head + f.count, n)
    && f.count == |m.list| && f.total == Total(m.list)
    && SlotsAgree(f, m)
    && IndexAgrees(f, m)
  }

  /** The slot an index entry leads to holds the bucket at that position. */
  lemma IndexedSlot<T>(f: Fields<T>, m: Buckets<T>, trace: TraceID)
    requires Represents(f, m) && trace in f.index
    ensures trace in m.index && 0 <= m.index[trace] < |m.list| && f.index[trace] < |f.slots|
    ensures f.slots[f.index[trace]] == Some(m.list[m.index[trace]])
  {
  }

  lemma HeadSlot<T>(f: Fields<T>, m: Buckets<T>)
    requires Represents(f, m) && f.count > 0
    ensures f.slots[f.head] == Some(m.list[0]) && |m.list[0].items| <= f.total
  {
    assert f.slots[Wrap(f.head + 0, |f.slots|)] == Some(m.list[0]);
  }

  lemma JoinRep<T>(f: Fields<T>, m: Buckets<T>, trace: TraceID, item: T)
    requires Represents(f, m) && trace in f.index && Joins(m, trace)
    ensures var b := m.list[m.index[trace]];
      Represents(f.(slots := f.slots[f.index[trace] := Some(b.(items := b.items + [item]))], total := f.total + 1),
                 Join(m, trace, item))
  {
    var b := m.list[m.index[trace]];
    TotalUpdate(m.list, m.index[trace], b.(items := b.items + [item]));
  }

  lemma UnindexRep<T>(f: Fields<T>, m: Buckets<T>, trace: TraceID)
    requires Represents(f, m)
    ensures Represents(f.(index := f.index - {trace}), Unindex(m, trace))
  {
  }

  lemma AddRep<T>(f: Fields<T>, m: Buckets<T>, trace: TraceID, item: T)
    requires Represents(f, m) && f.count < |f.slots|
    ensures Represents(
      f.(slots := f.slots[f.tail := Some(TraceBucket(trace, [item]))],
         index := if trace == NoTrace then f.index else f.index[trace := f.tail],
         tail := (f.tail + 1) % |f.slots|, count := f.count + 1, total := f.total + 1),
      AddBucket(m, trace, item))
  {
    WrapIsMod(f.tail + 1, |f.slots|);
    TotalAppend(m.list, TraceBucket(trace, [item]));
  }

  lemma RemoveHeadRep<T>(f: Fields<T>, m: Buckets<T>, slot: Option<TraceBucket<T>>)
    requires Represents(f, m) && f.count > 0
    requires forall t <- m.index :: t == m.list[0].trace || m.index[t] > 0
    ensures f.total >= |m.list[0].items|
    ensures Represents(
      f.(slots := f.slots[f.head := slot], index := f.index - {m.list[0].trace},
         head := (f.head + 1) % |f.slots|, count := f.count - 1, total := f.total - |m.list[0].items|),
      RemoveHead(m))
  {
    WrapIsMod(f.head + 1, |f.slots|);
  }

  lemma ShortenHeadRep<T>(f: Fields<T>, m: Buckets<T>, n: nat)
    requires Represents(f, m) && f.count > 0 && n < |m.list[0].items|
    ensures f.total >= n
    ensures Represents(
      f.(slots := f.slots[f.head := Some(m.list[0].(items := m.list[0].items[n..]))], total := f.total - n),
      TakeFromHead(m, n))
  {
    TotalUpdate(m.list, 0, m.list[0].(items := m.list[0].items[n..]));
  }

  /** Only the head's own trace has an index entry for the head. */
  lemma OthersBehindHead<T>(m: Buckets<T>, n: nat)
    requires BucketsOk(m, n) && m.list != []
    ensures forall t <- m.index :: t == m.list[0].trace || m.index[t] > 0
  {
    forall t <- m.index
      ensures t == m.list[0].trace || m.index[t] > 0
    {
      assert IsLast(m.list, t, m.index[t]);
    }
  }

  lemma FlattenStep<T>(bs: seq<TraceBucket<T>>, i: nat)
    requires i < |bs|
    ensures Flatten(bs[..i + 1]) == Flatten(bs[..i]) + bs[i].items
  {
    assert bs[..i + 1] == bs[..i] + [bs[i]];
    FlattenAppend(bs[..i], bs[i]);
  }

  /** Having polled `res` so far, `m` is on the way from `m0` to a batch of `goal` items. */
  ghost predicate Polling<T>(m0: Buckets<T>, m: Buckets<T>, res: seq<T>, goal: nat) {
    && |res| <= goal <= Total(m0.list) && goal - |res| <= Total(m.list)
    && res + Flatten(m.list) == Flatten(m0.list)
    && Take(m, goal - |res|) == Take(m0, goal)
  }

  lemma PollingStep<T>(m0: Buckets<T>, m: Buckets<T>, bucketCapacity: nat, res: seq<T>, n: nat, goal: nat)
    requires Polling(m0, m, res, goal) && BucketsOk(m, bucketCapacity)
    requires m.list != [] && n <= |m.list[0].items| && |res| + n <= goal
    ensures Polling(m0, TakeFromHead(m, n), res + m.list[0].items[..n], goal)
  {
    TakeFromHeadOk(m, bucketCapacity, n);
    TakeTake(m, bucketCapacity, n, goal - |res| - n);
  }

  lemma PollingDone<T>(m0: Buckets<T>, m: Buckets<T>, res: seq<T>, goal: nat)
    requires Polling(m0, m, res, goal) && (|res| == goal || m.list == [])
    ensures m == Take(m0, goal) && res == Flatten(m0.list)[..goal]
  {
  }

  // ---------------------------------------------------------------------------
  // The buffer
  // ---------------------------------------------------------------------------

  class BucketedBuffer<T> {
    const buckets: array<Option<TraceBucket<T>>>
    var traceIndex: map<TraceID, nat>
    var head: nat
    var tail: nat
    const itemCapacity: nat
    const bucketCapacity: nat
    var totalItems: nat
    var bucketCount: nat
    const overflowPolicy: OverflowPolicy
    const batchSize: nat
    const timeout: int
    var lastFlushTime: int
    var offered: nat
    var dropped: nat
    /** What was reported to the client-report recorder, oldest first. */
    var recorded: seq<T>
    ghost var model: Buckets<T>

    ghost function FieldsOf(): Fields<T>
      reads this, buckets
    {
      Fields(buckets[..], traceIndex, head, tail, bucketCount, totalItems)
    }

    ghost predicate Valid()
      reads this, buckets
    {
      && buckets.Length == bucketCapacity && bucketCapacity > 0 && itemCapacity > 0 && batchSize > 0
      && dropped == |recorded|
      && Represents(FieldsOf(), model)
      && BucketsOk(model, bucketCapacity)
    }

    constructor (capacity: int, overflowPolicy: OverflowPolicy, batchSize: int, timeout: int, now: int)
      ensures Valid() && fresh(buckets)
      ensures model == Buckets([], map[]) && offered == 0 && recorded == []
      ensures itemCapacity == if capacity <= 0 then DEFAULT_BUCKETED_CAPACITY else capacity
      ensures bucketCapacity == BucketCapacityFor(itemCapacity)
      ensures this.batchSize == (if batchSize <= 0 then 1 else batchSize)
      ensures this.timeout == (if timeout < 0 then 0 else timeout)
      ensures this.overflowPolicy == overflowPolicy && lastFlushTime == now
    {
      var cap: nat := if capacity <= 0 then DEFAULT_BUCKETED_CAPACITY else capacity;
      var bcap: nat := if cap / 10 < 10 then 10 else cap / 10;
      itemCapacity, bucketCapacity := cap, bcap;
      this.batchSize := if batchSize <= 0 then 1 else batchSize;
      this.timeout := if timeout < 0 then 0 else timeout;
      this.overflowPolicy := overflowPolicy;
      buckets := new Option<TraceBucket<T>>[bcap](i => None);
      traceIndex, head, tail, totalItems, bucketCount := map[], 0, 0, 0, 0;
      lastFlushTime, offered, dropped, recorded := now, 0, 0, [];
      model := Buckets([], map[]);
    }

    method Offer(item: T, traceID: TraceID) returns (accepted: bool)
      requires Valid()
      modifies this, buckets
      ensures Valid() && offered == old(offered) + 1 && lastFlushTime == old(lastFlushTime)
      ensures var o := BucketOffer(old(model), itemCapacity, bucketCapacity, overflowPolicy, traceID, item);
        model == o.state && accepted == o.accepted && recorded == old(recorded) + o.dropped
    {
      offered := offered + 1;
      accepted := OfferToBucket(item, traceID);
    }

    method OfferToBucket(item: T, traceID: TraceID) returns (accepted: bool)
      requires Valid()
      modifies this`traceIndex, this`head, this`tail, this`bucketCount, this`totalItems, this`model, this`dropped, this`recorded,
        buckets
      ensures Valid()
      ensures var o := BucketOffer(old(model), itemCapacity, bucketCapacity, overflowPolicy, traceID, item);
        model == o.state && accepted == o.accepted && recorded == old(recorded) + o.dropped
    {
      var joined := TryJoin(item, traceID);
      if joined {
        assert recorded == old(recorded) + [];
        return true;
      }
      accepted := OfferNewBucket(item, traceID, old(model));
    }

    /** The start of offerToBucket: join the indexed bucket, or forget it if it is full. */
    method TryJoin(item: T, traceID: TraceID) returns (joined: bool)
      requires Valid()
      modifies this`traceIndex, this`totalItems, this`model, buckets
      ensures Valid() && joined == Joins(old(model), traceID)
      ensures model == if joined then Join(old(model), traceID, item) else Unindex(old(model), traceID)
    {
      if traceID != NoTrace && traceID in traceIndex {
        IndexedSlot(FieldsOf(), model, traceID);
        var bucket := buckets[traceIndex[traceID]].value;
        if |bucket.items| >= PER_BUCKET_ITEM_LIMIT {
          DeleteIndex(traceID);
        } else {
          AppendToBucket(traceID, item);
          return true;
        }
      }
      assert model.index - {traceID} == model.index;
      return false;
    }

    /** The rest of offerToBucket, when no indexed bucket takes the item. */
    method OfferNewBucket(item: T, traceID: TraceID, ghost before: Buckets<T>) returns (accepted: bool)
      requires Valid() && !Joins(before, traceID) && model == Unindex(before, traceID)
      modifies this`traceIndex, this`head, this`tail, this`bucketCount, this`totalItems, this`model, this`dropped, this`recorded,
        buckets
      ensures Valid()
      ensures var o := BucketOffer(before, itemCapacity, bucketCapacity, overflowPolicy, traceID, item);
        model == o.state && accepted == o.accepted && recorded == old(recorded) + o.dropped
    {
      if totalItems >= itemCapacity {
        accepted := HandleOverflow(item, traceID);
        return;
      }
      if bucketCount >= bucketCapacity {
        accepted := HandleOverflow(item, traceID);
        return;
      }
      AddNewBucket(item, traceID);
      return true;
    }

    method DeleteIndex(traceID: TraceID)
      requires Valid()
      modifies this`traceIndex, this`model
      ensures Valid() && model == Unindex(old(model), traceID)
    {
      UnindexRep(FieldsOf(), model, traceID);
      traceIndex := traceIndex - {traceID};
      model := Unindex(model, traceID);
    }

    method AppendToBucket(traceID: TraceID, item: T)
      requires Valid() && traceID in traceIndex && Joins(model, traceID)
      modifies this`totalItems, this`model, buckets
      ensures Valid() && model == Join(old(model), traceID, item)
    {
      ghost var f := FieldsOf();
      IndexedSlot(f, model, traceID);
      JoinRep(f, model, traceID, item);
      JoinFacts(model, bucketCapacity, traceID, item);
      var idx := traceIndex[traceID];
      var bucket := buckets[idx].value;
      buckets[idx] := Some(bucket.(items := bucket.items + [item]));
      totalItems := totalItems + 1;
      assert buckets[..] == f.slots[idx := buckets[idx]];
      model := Join(model, traceID, item);
    }

    /** The lines that create a bucket at the tail, which the source has twice. */
    method AddNewBucket(item: T, traceID: TraceID)
      requires Valid() && bucketCount < bucketCapacity && traceID !in model.index
      modifies this`traceIndex, this`tail, this`bucketCount, this`totalItems, this`model, buckets
      ensures Valid() && model == AddBucket(old(model), traceID, item)
    {
      ghost var f := FieldsOf();
      AddRep(f, model, traceID, item);
      AddBucketOk(model, bucketCapacity, traceID, item);
      buckets[tail] := Some(TraceBucket(traceID, [item]));
      assert buckets[..] == f.slots[tail := buckets[tail]];
      if traceID != NoTrace {
        traceIndex := traceIndex[traceID := tail];
      }
      assert traceIndex == if traceID == NoTrace then f.index else f.index[traceID := f.tail];
      tail := (tail + 1) % bucketCapacity;
      bucketCount := bucketCount + 1;
      totalItems := totalItems + 1;
      assert FieldsOf() == f.(slots := buckets[..], index := traceIndex, tail := tail, count := bucketCount,
        total := totalItems);
      model := AddBucket(model, traceID, item);
    }

    method HandleOverflow(item: T, traceID: TraceID) returns (accepted: bool)
      requires Valid() && traceID !in model.index && model.list != []
      modifies this`traceIndex, this`head, this`tail, this`bucketCount, this`totalItems, this`model, this`dropped, this`recorded,
        buckets
      ensures Valid()
      ensures var o := BucketOverflow(old(model), overflowPolicy, traceID, item);
        model == o.state && accepted == o.accepted && recorded == old(recorded) + o.dropped
    {
      match overflowPolicy {
        case DropOldest =>
          DropOldestBucket();
          AddNewBucket(item, traceID);
          return true;
        case DropNewest =>
          RecordDroppedItems([item]);
          return false;
        case UnknownPolicy =>
          RecordDroppedItems([item]);
          return false;
      }
    }

    /** The drop-oldest lines of handleOverflow, up to the creation of the new bucket. */
    method DropOldestBucket()
      requires Valid() && model.list != []
      modifies this`traceIndex, this`head, this`bucketCount, this`totalItems, this`model, this`dropped, this`recorded, buckets
      ensures Valid()
      ensures model == RemoveHead(old(model)) && recorded == old(recorded) + old(model).list[0].items
    {
      var oldestBucket := HeadBucket();
      RecordDroppedItems(oldestBucket.items);
      RemoveOldest(oldestBucket, Some(oldestBucket));
    }

    /** The slot at the head; the branches for a missing or empty bucket cannot happen. */
    method HeadBucket() returns (bucket: TraceBucket<T>)
      requires Valid() && model.list != []
      ensures bucket == model.list[0]
    {
      HeadSlot(FieldsOf(), model);
      if buckets[head].None? || |buckets[head].value.items| == 0 {
        assert false;
      }
      bucket := buckets[head].value;
    }

    method RecordDroppedItems(items: seq<T>)
      requires Valid()
      modifies this`dropped, this`recorded
      ensures Valid() && recorded == old(recorded) + items
    {
      for i := 0 to |items|
        invariant recorded == old(recorded) + items[..i] && dropped == old(dropped)
      {
        recorded := recorded + [items[i]];
      }
      dropped := dropped + |items|;
    }

    /** Takes the oldest bucket out of the circle, leaving `slot` in its place. */
    method RemoveOldest(bucket: TraceBucket<T>, slot: Option<TraceBucket<T>>)
      requires Valid() && bucketCount > 0 && bucket == model.list[0]
      modifies this`traceIndex, this`head, this`bucketCount, this`totalItems, this`model, buckets
      ensures Valid() && model == RemoveHead(old(model))
    {
      ghost var f := FieldsOf();
      OthersBehindHead(model, bucketCapacity);
      RemoveHeadRep(f, model, slot);
      RemoveHeadOk(model, bucketCapacity);
      traceIndex := traceIndex - {bucket.trace};
      buckets[head] := slot;
      assert buckets[..] == f.slots[head := slot];
      totalItems := totalItems - |bucket.items|;
      bucketCount := bucketCount - 1;
      head := (head + 1) % bucketCapacity;
      model := RemoveHead(model);
    }

    method Poll() returns (r: Option<T>)
      requires Valid()
      modifies this`traceIndex, this`head, this`bucketCount, this`totalItems, this`model, buckets
      ensures Valid()
      ensures model == Take(old(model), Min(1, Total(old(model).list)))
      ensures r == if old(model).list == [] then None else Some(old(model).list[0].items[0])
    {
      if bucketCount == 0 {
        return None;
      }
      var bucket := HeadBucket();
      r := Some(bucket.items[0]);
      TakeTake(model, bucketCapacity, 1, 0);
      PopHead(bucket, 1);
    }

    /** Removes the first `n` items of the head bucket, and the bucket if it is empty then. */
    method PopHead(bucket: TraceBucket<T>, n: nat)
      requires Valid() && bucketCount > 0 && bucket == model.list[0] && 0 < n <= |bucket.items|
      modifies this`traceIndex, this`head, this`bucketCount, this`totalItems, this`model, buckets
      ensures Valid() && model == TakeFromHead(old(model), n)
    {
      if n == |bucket.items| {
        RemoveOldest(bucket, None);
      } else {
        ghost var f := FieldsOf();
        ShortenHeadRep(f, model, n);
        TakeFromHeadOk(model, bucketCapacity, n);
        buckets[head] := Some(bucket.(items := bucket.items[n..]));
        assert buckets[..] == f.slots[head := buckets[head]];
        totalItems := totalItems - n;
        model := TakeFromHead(model, n);
      }
    }

    method PollBatch(maxItems: int) returns (res: seq<T>)
      requires Valid()
      modifies this`traceIndex, this`head, this`bucketCount, this`totalItems, this`model, buckets
      ensures Valid()
      ensures var n := if maxItems <= 0 then 0 else Min(maxItems, Total(old(model).list));
        model == Take(old(model), n) && res == Flatten(old(model).list)[..n]
    {
      res := [];
      if maxItems <= 0 || bucketCount == 0 {
        return;
      }
      ghost var m0, goal := model, Min(maxItems, Total(model.list));
      while |res| < maxItems && bucketCount > 0
        invariant Valid()
        invariant Polling(m0, model, res, goal)
        decreases maxItems - |res|
      {
        ghost var m := model;
        var part := PollHead(maxItems - |res|);
        PollingStep(m0, m, bucketCapacity, res, |part|, goal);
        res := res + part;
      }
      PollingDone(m0, model, res, goal);
    }

    /** One turn of the PollBatch loop: up to `n` items of the head bucket. */
    method PollHead(max: nat) returns (part: seq<T>)
      requires Valid() && bucketCount > 0 && max > 0
      modifies this`traceIndex, this`head, this`bucketCount, this`totalItems, this`model, buckets
      ensures Valid() && 0 < |part| <= max && |part| == Min(max, |old(model).list[0].items|)
      ensures part == old(model).list[0].items[..|part|] && model == TakeFromHead(old(model), |part|)
    {
      var bucket := HeadBucket();
      var n := max;
      if n > |bucket.items| {
        n := |bucket.items|;
      }
      part := bucket.items[..n];
      PopHead(bucket, n);
    }

    method PollIfReady(now: int) returns (items: seq<T>)
      requires Valid()
      modifies this, buckets
      ensures Valid() && offered == old(offered) && recorded == old(recorded)
      ensures var ready := old(model).list != []
          && (Total(old(model).list) >= batchSize || (timeout > 0 && now - old(lastFlushTime) >= timeout));
        if ready then
          model == RemoveHead(old(model)) && items == old(model).list[0].items && lastFlushTime == now
        else model == old(model) && items == [] && lastFlushTime == old(lastFlushTime)
    {
      if bucketCount == 0 {
        return [];
      }
      var ready := totalItems >= batchSize || (timeout > 0 && now - lastFlushTime >= timeout);
      if !ready {
        return [];
      }
      var oldest := HeadBucket();
      items := oldest.items;
      RemoveOldest(oldest, None);
      lastFlushTime := now;
    }

    /** The body of the loop of Drain: the items of the i-th bucket from the head. */
    method EmptySlot(i: nat) returns (items: seq<T>)
      requires buckets.Length == bucketCapacity > 0 && head < bucketCapacity && |model.list| <= bucketCapacity
      requires i < |model.list| && SlotsAgreeFrom(buckets[..], head, model.list, i)
      modifies buckets
      ensures items == model.list[i].items && SlotsAgreeFrom(buckets[..], head, model.list, i + 1)
    {
      WrapIsMod(head + i, bucketCapacity);
      var idx := (head + i) % bucketCapacity;
      var bucket := buckets[idx];
      assert bucket == Some(model.list[i]);
      ghost var before := buckets[..];
      items := [];
      if bucket.Some? {
        items := bucket.value.items;
        buckets[idx] := None;
      }
      assert buckets[..] == before[idx := None];
    }

    method Drain() returns (res: seq<T>)
      requires Valid()
      modifies this, buckets
      ensures Valid() && offered == old(offered) && recorded == old(recorded) && lastFlushTime == old(lastFlushTime)
      ensures model == Buckets([], map[]) && res == Flatten(old(model).list)
    {
      res := [];
      if bucketCount == 0 {
        assert model.index.Keys == {};
        return;
      }
      for i := 0 to bucketCount
        invariant res == Flatten(model.list[..i])
        invariant SlotsAgreeFrom(buckets[..], head, model.list, i)
        modifies buckets
      {
        FlattenStep(model.list, i);
        var items := EmptySlot(i);
        res := res + items;
      }
      assert model.list[..bucketCount] == model.list;
      Reset();
    }

    method Reset()
      requires buckets.Length == bucketCapacity > 0 && itemCapacity > 0 && batchSize > 0 && dropped == |recorded|
      modifies this`traceIndex, this`head, this`tail, this`totalItems, this`bucketCount, this`model
      ensures Valid() && model == Buckets([], map[])
    {
      traceIndex := map[];
      head := 0;
      tail := 0;
      totalItems := 0;
      bucketCount := 0;
      model := Buckets([], map[]);
    }

    method Clear()
      requires Valid()
      modifies this, buckets
      ensures Valid() && offered == old(offered) && recorded == old(recorded) && lastFlushTime == old(lastFlushTime)
      ensures model == Buckets([], map[])
    {
      for i := 0 to bucketCapacity
        modifies buckets
      {
        buckets[i] := None;
      }
      Reset();
    }

    method IsReadyToFlush(now: int) returns (ready: bool)
      requires Valid()
      ensures ready == (model.list != []
                        && (Total(model.list) >= batchSize || (timeout > 0 && now - lastFlushTime >= timeout)))
    {
      if bucketCount == 0 {
        return false;
      }
      if totalItems >= batchSize {
        return true;
      }
      return timeout > 0 && now - lastFlushTime >= timeout;
    }
  }
}
