/** The buffers that the scheduler polls are RingBuffer and BucketedBuffer objects: a poll of the
    object is the poll that the scheduler counts on. */
module SchedulerBuffers {
  import opened BufferModels
  import opened BucketedBuffers
  import opened Outcomes
  import opened RingBuffers
  import opened Schedulers
  import opened Wrappers

  ghost predicate ShowsRing(b: RingBuffer<Item>, view: Buffer)
    reads b, b.items
  {
    && b.Valid() && view.contents == Ring(b.queue) && view.batchSize == b.batchSize
    && view.timeout == b.timeout && view.lastFlush == b.lastFlushTime
  }

  ghost predicate ShowsBuckets(b: BucketedBuffer<Item>, view: Buffer)
    reads b, b.buckets
  {
    && b.Valid() && view.contents == Bucketed(b.model.list) && view.batchSize == b.batchSize
    && view.timeout == b.timeout && view.lastFlush == b.lastFlushTime
  }

  method RingReady(b: RingBuffer<Item>, ghost view: Buffer, now: int) returns (ready: bool)
    requires ShowsRing(b, view)
    ensures view.Valid() && ready == view.Ready(now)
  {
    ready := b.IsReadyToFlush(now);
  }

  method BucketsReady(b: BucketedBuffer<Item>, ghost view: Buffer, now: int) returns (ready: bool)
    requires ShowsBuckets(b, view)
    ensures view.Valid() && ready == view.Ready(now)
  {
    ready := b.IsReadyToFlush(now);
  }

  method PollRing(b: RingBuffer<Item>, ghost view: Buffer, now: int) returns (items: seq<Item>)
    requires ShowsRing(b, view)
    modifies b, b.items
    ensures view.Valid()
    ensures if view.Ready(now) then items == view.Batch() && ShowsRing(b, view.Polled(now))
            else items == [] && ShowsRing(b, view)
  {
    items := b.PollIfReady(now);
  }

  method PollBuckets(b: BucketedBuffer<Item>, ghost view: Buffer, now: int) returns (items: seq<Item>)
    requires ShowsBuckets(b, view)
    modifies b, b.buckets
    ensures view.Valid()
    ensures if view.Ready(now) then items == view.Batch() && ShowsBuckets(b, view.Polled(now))
            else items == [] && ShowsBuckets(b, view)
  {
    items := b.PollIfReady(now);
  }
}
