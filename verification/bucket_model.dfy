/** What the telemetry buffers hold, as values: a bounded queue for RingBuffer and a
    list of trace buckets for BucketedBuffer (internal/telemetry).  The classes in
    ring_buffer.dfy and bucketed_buffer.dfy are proved against these functions. */
module BufferModels {
  import opened Wrappers

  datatype OverflowPolicy = DropOldest | DropNewest | UnknownPolicy

  /** Outcome of an offer: the new contents, the answer, and what was dropped. */
  datatype Offered<+S, +T> = Offered(state: S, accepted: bool, dropped: seq<T>)

  // ---------------------------------------------------------------------------
  // A bounded queue
  // ---------------------------------------------------------------------------

  function RingOffer<T>(q: seq<T>, capacity: nat, policy: OverflowPolicy, item: T): Offered<seq<T>, T>
    requires |q| <= capacity && capacity > 0
  {
    if |q| < capacity then Offered(q + [item], true, [])
    else if policy.DropOldest? then Offered(q[1..] + [item], true, [q[0]])
    else Offered(q, false, [item])
  }

  function Min(a: int, b: int): int {
    if a < b then a else b
  }

  /** Position `x` of a circular array of `n` slots, for `x` up to twice around. */
  function Wrap(x: nat, n: nat): nat {
    if x < n then x else x - n
  }

  lemma WrapIsMod(x: nat, n: nat)
    requires n > 0 && x < 2 * n
    ensures x % n == Wrap(x, n) < n
  {
    if x >= n {
      assert x == n + (x - n);
    }
  }

  // ---------------------------------------------------------------------------
  // A list of buckets
  // ---------------------------------------------------------------------------

  const PER_BUCKET_ITEM_LIMIT: nat := 100

  /** How many buckets a buffer gets: a tenth of its capacity, and at least 10. */
  function BucketCapacityFor(itemCapacity: nat): nat {
    if itemCapacity / 10 < 10 then 10 else itemCapacity / 10
  }

  /** The trace an item belongs to; NoTrace is the empty trace id. */
  datatype TraceID = NoTrace | TraceID(hex: string)

  datatype TraceBucket<T> = TraceBucket(trace: TraceID, items: seq<T>)

  /** `index` gives, for some of the traces, the position of a bucket in the list. */
  datatype Buckets<T> = Buckets(list: seq<TraceBucket<T>>, index: map<TraceID, int>)

  /** Bucket `k` is the last one of trace `t`. */
  ghost predicate IsLast<T>(bs: seq<TraceBucket<T>>, t: TraceID, k: int) {
    && 0 <= k < |bs| && bs[k].trace == t
    && forall j :: k < j < |bs| ==> bs[j].trace != t
  }

  function Total<T>(bs: seq<TraceBucket<T>>): nat {
    if bs == [] then 0 else |bs[0].items| + Total(bs[1..])
  }

  /** The list is bounded, its buckets are neither empty nor over the item limit, and
      every index entry points to the last bucket of its trace. */
  ghost predicate BucketsOk<T>(s: Buckets<T>, bucketCapacity: nat) {
    && |s.list| <= bucketCapacity
    && (forall i :: 0 <= i < |s.list| ==> 0 < |s.list[i].items| <= PER_BUCKET_ITEM_LIMIT)
    && (forall t <- s.index :: t != NoTrace && IsLast(s.list, t, s.index[t]))
  }

  function AddBucket<T>(s: Buckets<T>, trace: TraceID, item: T): Buckets<T> {
    Buckets(s.list + [TraceBucket(trace, [item])], if trace == NoTrace then s.index else s.index[trace := |s.list|])
  }

  /** Removing the oldest bucket also removes its trace from the index, even if the
      entry was for a newer bucket of that trace. */
  function RemoveHead<T>(s: Buckets<T>): Buckets<T>
    requires s.list != []
  {
    Buckets(s.list[1..], map t | t in s.index && t != s.list[0].trace :: s.index[t] - 1)
  }

  predicate Joins<T>(s: Buckets<T>, trace: TraceID) {
    trace in s.index && 0 <= s.index[trace] < |s.list| && |s.list[s.index[trace]].items| < PER_BUCKET_ITEM_LIMIT
  }

  function BucketOverflow<T>(s: Buckets<T>, policy: OverflowPolicy, trace: TraceID, item: T): Offered<Buckets<T>, T>
    requires s.list != []
  {
    if policy.DropOldest? then Offered(AddBucket(RemoveHead(s), trace, item), true, s.list[0].items)
    else Offered(s, false, [item])
  }

  function Unindex<T>(s: Buckets<T>, trace: TraceID): Buckets<T> {
    s.(index := s.index - {trace})
  }

  function Join<T>(s: Buckets<T>, trace: TraceID, item: T): Buckets<T>
    requires Joins(s, trace)
  {
    var k := s.index[trace];
    s.(list := s.list[k := s.list[k].(items := s.list[k].items + [item])])
  }

  /** An offer that no indexed bucket can take. */
  function NewBucketOffer<T>(s: Buckets<T>, itemCapacity: nat, bucketCapacity: nat, policy: OverflowPolicy,
                             trace: TraceID, item: T): Offered<Buckets<T>, T>
    requires itemCapacity > 0 && bucketCapacity > 0
  {
    if Total(s.list) >= itemCapacity || |s.list| >= bucketCapacity then BucketOverflow(s, policy, trace, item)
    else Offered(AddBucket(s, trace, item), true, [])
  }

  function BucketOffer<T>(s: Buckets<T>, itemCapacity: nat, bucketCapacity: nat, policy: OverflowPolicy,
                          trace: TraceID, item: T): Offered<Buckets<T>, T>
    requires itemCapacity > 0 && bucketCapacity > 0
  {
    if Joins(s, trace) then Offered(Join(s, trace, item), true, [])
    else NewBucketOffer(Unindex(s, trace), itemCapacity, bucketCapacity, policy, trace, item)
  }

  /** Takes `n` items from the head bucket, dropping the bucket when it is empty. */
  function TakeFromHead<T>(s: Buckets<T>, n: nat): Buckets<T>
    requires s.list != [] && n <= |s.list[0].items|
  {
    if n == |s.list[0].items| then RemoveHead(s)
    else s.(list := s.list[0 := s.list[0].(items := s.list[0].items[n..])])
  }

  /** Takes the first `n` items, bucket after bucket. */
  function Take<T>(s: Buckets<T>, n: nat): Buckets<T>
    requires n <= Total(s.list)
    decreases |s.list|
  {
    if n == 0 || s.list == [] then s
    else if n < |s.list[0].items| then TakeFromHead(s, n)
    else Take(RemoveHead(s), n - |s.list[0].items|)
  }

  /** All items, head bucket first. */
  function Flatten<T>(bs: seq<TraceBucket<T>>): (r: seq<T>)
    ensures |r| == Total(bs)
  {
    if bs == [] then [] else bs[0].items + Flatten(bs[1..])
  }

  // ---------------------------------------------------------------------------
  // The operations keep the buckets well formed
  // ---------------------------------------------------------------------------

  lemma {:induction false} FlattenAppend<T>(bs: seq<TraceBucket<T>>, b: TraceBucket<T>)
    ensures Flatten(bs + [b]) == Flatten(bs) + b.items
  {
    if bs == [] {
      assert bs + [b] == [b];
    } else {
      assert (bs + [b])[1..] == bs[1..] + [b];
      FlattenAppend(bs[1..], b);
    }
  }

  lemma {:induction false} TotalAppend<T>(bs: seq<TraceBucket<T>>, b: TraceBucket<T>)
    ensures Total(bs + [b]) == Total(bs) + |b.items|
  {
    if bs == [] {
      assert bs + [b] == [b];
    } else {
      assert (bs + [b])[1..] == bs[1..] + [b];
      TotalAppend(bs[1..], b);
    }
  }

  lemma {:induction false} TotalUpdate<T>(bs: seq<TraceBucket<T>>, i: nat, b: TraceBucket<T>)
    requires i < |bs|
    ensures Total(bs[i := b]) == Total(bs) - |bs[i].items| + |b.items|
  {
    if i == 0 {
      assert bs[i := b][1..] == bs[1..];
    } else {
      assert bs[i := b][1..] == bs[1..][i - 1 := b];
      TotalUpdate(bs[1..], i - 1, b);
    }
  }

  lemma {:induction false} TotalBound<T>(bs: seq<TraceBucket<T>>)
    requires forall i :: 0 <= i < |bs| ==> 0 < |bs[i].items| <= PER_BUCKET_ITEM_LIMIT
    ensures |bs| <= Total(bs) <= |bs| * PER_BUCKET_ITEM_LIMIT
  {
    if bs != [] {
      TotalBound(bs[1..]);
    }
  }

  lemma RemoveHeadOk<T>(s: Buckets<T>, bucketCapacity: nat)
    requires BucketsOk(s, bucketCapacity) && s.list != []
    ensures BucketsOk(RemoveHead(s), bucketCapacity)
  {
    forall t <- RemoveHead(s).index
      ensures IsLast(s.list[1..], t, s.index[t] - 1)
    {
      assert IsLast(s.list, t, s.index[t]);
    }
  }

  lemma AddBucketOk<T>(s: Buckets<T>, bucketCapacity: nat, trace: TraceID, item: T)
    requires BucketsOk(s, bucketCapacity) && |s.list| < bucketCapacity && trace !in s.index
    ensures BucketsOk(AddBucket(s, trace, item), bucketCapacity)
  {
    var r := AddBucket(s, trace, item);
    forall t <- r.index
      ensures t != NoTrace && IsLast(r.list, t, r.index[t])
    {
      if t != trace {
        assert IsLast(s.list, t, s.index[t]);
      }
    }
  }

  /** What joining an indexed bucket changes, field by field. */
  lemma JoinFacts<T>(s: Buckets<T>, bucketCapacity: nat, trace: TraceID, item: T)
    requires BucketsOk(s, bucketCapacity) && Joins(s, trace)
    ensures BucketsOk(Join(s, trace, item), bucketCapacity)
    ensures Total(Join(s, trace, item).list) == Total(s.list) + 1
  {
    var k := s.index[trace];
    var r := Join(s, trace, item);
    TotalUpdate(s.list, k, r.list[k]);
    forall t <- s.index
      ensures IsLast(r.list, t, r.index[t])
    {
      assert IsLast(s.list, t, s.index[t]);
    }
  }

  /** No offer ever breaks the bucket limits or the index. */
  lemma BucketOfferOk<T>(s: Buckets<T>, itemCapacity: nat, bucketCapacity: nat, policy: OverflowPolicy,
                         trace: TraceID, item: T)
    requires BucketsOk(s, bucketCapacity) && itemCapacity > 0 && bucketCapacity > 0
    ensures BucketsOk(BucketOffer(s, itemCapacity, bucketCapacity, policy, trace, item).state, bucketCapacity)
  {
    if Joins(s, trace) {
      JoinFacts(s, bucketCapacity, trace, item);
    } else {
      var s1 := Unindex(s, trace);
      assert BucketsOk(s1, bucketCapacity);
      if Total(s.list) >= itemCapacity || |s.list| >= bucketCapacity {
        RemoveHeadOk(s1, bucketCapacity);
        AddBucketOk(RemoveHead(s1), bucketCapacity, trace, item);
      } else {
        AddBucketOk(s1, bucketCapacity, trace, item);
      }
    }
  }

  lemma TakeFromHeadOk<T>(s: Buckets<T>, bucketCapacity: nat, n: nat)
    requires BucketsOk(s, bucketCapacity) && s.list != [] && n <= |s.list[0].items|
    ensures BucketsOk(TakeFromHead(s, n), bucketCapacity)
    ensures Flatten(s.list) == s.list[0].items[..n] + Flatten(TakeFromHead(s, n).list)
  {
    if n == |s.list[0].items| {
      RemoveHeadOk(s, bucketCapacity);
    } else {
      forall t <- s.index
        ensures IsLast(TakeFromHead(s, n).list, t, s.index[t])
      {
        assert IsLast(s.list, t, s.index[t]);
      }
    }
  }

  /** Taking gives out the front of the flattened items and keeps the rest. */
  lemma {:induction false} TakeOk<T>(s: Buckets<T>, bucketCapacity: nat, n: nat)
    requires BucketsOk(s, bucketCapacity) && n <= Total(s.list)
    ensures BucketsOk(Take(s, n), bucketCapacity)
    ensures Flatten(Take(s, n).list) == Flatten(s.list)[n..]
    decreases |s.list|
  {
    if n == 0 || s.list == [] {
    } else if n < |s.list[0].items| {
      TakeFromHeadOk(s, bucketCapacity, n);
    } else {
      RemoveHeadOk(s, bucketCapacity);
      TakeOk(RemoveHead(s), bucketCapacity, n - |s.list[0].items|);
    }
  }

  /** Taking in two goes is taking at once. */
  lemma {:induction false} TakeTake<T>(s: Buckets<T>, bucketCapacity: nat, m: nat, n: nat)
    requires BucketsOk(s, bucketCapacity) && s.list != [] && m <= |s.list[0].items| && m + n <= Total(s.list)
    ensures n <= Total(TakeFromHead(s, m).list)
    ensures Take(s, m + n) == Take(TakeFromHead(s, m), n)
  {
    TakeFromHeadOk(s, bucketCapacity, m);
    var h := s.list[0].items;
    if m < |h| {
      var s1 := TakeFromHead(s, m);
      if n < |h| - m {
        if n > 0 {
          assert h[m + n..] == h[m..][n..];
        }
      } else {
        assert RemoveHead(s1) == RemoveHead(s);
      }
    }
  }
}
