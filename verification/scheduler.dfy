/** The weighted round-robin Scheduler (internal/telemetry/scheduler.go): its cycle of priorities,
    for every order in which they enter it, and the choice of a ready buffer. */
module Schedulers {
  import opened BufferModels
  import opened Outcomes
  import opened Wrappers

  datatype Priority = Critical | High | Medium | Low | Lowest

  function Weight(p: Priority): (w: nat)
    ensures w > 0
  {
    match p
    case Critical => 5
    case High => 4
    case Medium => 3
    case Low => 2
    case Lowest => 1
  }

  // ---------------------------------------------------------------------------
  // Buffers, as the scheduler sees them
  // ---------------------------------------------------------------------------

  /** The contents of a RingBuffer or of a BucketedBuffer. */
  datatype Contents = Ring(queue: seq<Item>) | Bucketed(list: seq<TraceBucket<Item>>)

  datatype Buffer = Buffer(priority: Priority, contents: Contents, batchSize: nat, timeout: int, lastFlush: int) {
    predicate Valid() {
      && batchSize > 0
      && (contents.Bucketed? ==> forall i :: 0 <= i < |contents.list| ==> contents.list[i].items != [])
    }

    function Size(): nat {
      if contents.Ring? then |contents.queue| else Total(contents.list)
    }

    /** The items in the order in which polls hand them out. */
    function Items(): (items: seq<Item>)
      ensures |items| == Size()
    {
      if contents.Ring? then contents.queue else Flatten(contents.list)
    }

    /** IsReadyToFlush. */
    predicate Ready(now: int) {
      Size() > 0 && (Size() >= batchSize || (timeout > 0 && now - lastFlush >= timeout))
    }

    /** What PollIfReady takes from a buffer that is ready. */
    function Batch(): seq<Item>
      requires Valid() && Size() > 0
    {
      match contents
      case Ring(queue) => queue[..Min(batchSize, |queue|)]
      case Bucketed(list) => list[0].items
    }

    function Polled(now: int): Buffer
      requires Valid() && Size() > 0
    {
      var rest := match contents
        case Ring(queue) => Ring(queue[Min(batchSize, |queue|)..])
        case Bucketed(list) => Bucketed(list[1..]);
      this.(contents := rest, lastFlush := now)
    }
  }

  type Buffers = map<Category, Buffer>

  ghost predicate ValidBuffers(buffers: Buffers) {
    forall c :: c in buffers ==> buffers[c].Valid()
  }

  lemma PollShrinks(b: Buffer, now: int)
    requires b.Valid() && b.Size() > 0
    ensures b.Batch() != [] && b.Polled(now).Valid() && b.Polled(now).Size() + |b.Batch()| == b.Size()
  {
  }

  /** A poll takes its batch off the front and leaves the rest. */
  lemma PollSplits(b: Buffer, now: int)
    requires b.Valid() && b.Size() > 0
    ensures b.Items() == b.Batch() + b.Polled(now).Items()
  {
    if b.contents.Ring? {
      var n := Min(b.batchSize, |b.contents.queue|);
      assert b.contents.queue == b.contents.queue[..n] + b.contents.queue[n..];
    }
  }

  // ---------------------------------------------------------------------------
  // The cycle
  // ---------------------------------------------------------------------------

  function Repeat(p: Priority, n: nat): (r: seq<Priority>)
    ensures |r| == n && forall i :: 0 <= i < n ==> r[i] == p
  {
    if n == 0 then [] else Repeat(p, n - 1) + [p]
  }

  predicate HasPriority(buffers: Buffers, p: Priority) {
    exists c :: c in buffers && buffers[c].priority == p
  }

  /** Exactly the slots that the weights demand, in some order. */
  ghost predicate IsCycle(cycle: seq<Priority>, buffers: Buffers) {
    forall p: Priority :: multiset(cycle)[p] == if HasPriority(buffers, p) then Weight(p) else 0
  }

  lemma {:induction false} RepeatCount(p: Priority, n: nat, q: Priority)
    ensures multiset(Repeat(p, n))[q] == if q == p then n else 0
  {
    if n > 0 {
      RepeatCount(p, n - 1, q);
    }
  }

  /** What is to come: the cycle from the current position around. */
  function Upcoming(cycle: seq<Priority>, pos: nat): seq<Priority>
    requires pos <= |cycle|
  {
    cycle[pos..] + cycle[..pos]
  }

  function Advance(u: seq<Priority>): seq<Priority>
    requires u != []
  {
    u[1..] + [u[0]]
  }

  lemma AdvanceUpcoming(cycle: seq<Priority>, pos: nat)
    requires pos < |cycle|
    ensures (pos + 1) % |cycle| == if pos + 1 == |cycle| then 0 else pos + 1
    ensures Upcoming(cycle, (pos + 1) % |cycle|) == Advance(Upcoming(cycle, pos))
    ensures Upcoming(cycle, pos)[0] == cycle[pos]
  {
    assert cycle[..pos + 1] == cycle[..pos] + [cycle[pos]];
  }

  lemma UpcomingCount(cycle: seq<Priority>, pos: nat)
    requires pos <= |cycle|
    ensures multiset(Upcoming(cycle, pos)) == multiset(cycle)
  {
    assert cycle == cycle[..pos] + cycle[pos..];
  }

  // ---------------------------------------------------------------------------
  // The class
  // ---------------------------------------------------------------------------

  /** One call of processNextBatch: the buffers before and after it, and which buffer it
      served.  Which of several ready buffers of the priority is served is open. */
  ghost predicate Serves(before: Buffers, slot: Priority, now: int, served: Option<Category>, after: Buffers)
    requires ValidBuffers(before)
  {
    match served
    case None =>
      after == before && forall c :: c in before && before[c].priority == slot ==> !before[c].Ready(now)
    case Some(c) =>
      && c in before && before[c].priority == slot && before[c].Ready(now)
      && after == before[c := before[c].Polled(now)]
  }

  class Scheduler {
    var buffers: Buffers
    const currentCycle: seq<Priority>
    var cyclePos: nat

    ghost predicate Valid()
      reads this
    {
      && ValidBuffers(buffers)
      && IsCycle(currentCycle, buffers)
      && (if currentCycle == [] then cyclePos == 0 else cyclePos < |currentCycle|)
    }

    /** NewScheduler: the weights are iterated in any order. */
    constructor (buffers: Buffers)
      requires ValidBuffers(buffers)
      ensures Valid() && this.buffers == buffers && cyclePos == 0
    {
      var cycle := BuildCycle(buffers);
      this.buffers := buffers;
      currentCycle := cycle;
      cyclePos := 0;
    }

    /** The inner loop: one slot per unit of weight. */
    static method AppendSlots(cycle: seq<Priority>, priority: Priority) returns (longer: seq<Priority>)
      ensures forall q: Priority :: (
        multiset(longer)[q] == multiset(cycle)[q] + if q == priority then Weight(priority) else 0)
    {
      longer := cycle;
      for i := 0 to Weight(priority)
        invariant longer == cycle + Repeat(priority, i)
      {
        longer := longer + [priority];
      }
      forall q: Priority
        ensures multiset(longer)[q] == multiset(cycle)[q] + if q == priority then Weight(priority) else 0
      {
        RepeatCount(priority, Weight(priority), q);
      }
    }

    static method BuildCycle(buffers: Buffers) returns (cycle: seq<Priority>)
      ensures IsCycle(cycle, buffers)
    {
      cycle := [];
      var rest := {Critical, High, Medium, Low, Lowest};
      while rest != {}
        invariant forall p: Priority :: (
          multiset(cycle)[p] == if p !in rest && HasPriority(buffers, p) then Weight(p) else 0)
        decreases |rest|
      {
        var priority :| priority in rest;
        var hasBuffers := HasPriority(buffers, priority);
        if hasBuffers {
          cycle := AppendSlots(cycle, priority);
        }
        rest := rest - {priority};
      }
    }

    method HasWork(now: int) returns (work: bool)
      ensures work <==> exists c :: c in buffers && buffers[c].Ready(now)
    {
      var rest := buffers.Keys;
      while rest != {}
        invariant rest <= buffers.Keys
        invariant forall c :: c in buffers && c !in rest ==> !buffers[c].Ready(now)
        decreases |rest|
      {
        var c :| c in rest;
        if buffers[c].Ready(now) {
          return true;
        }
        rest := rest - {c};
      }
      return false;
    }

    /** processNextBatch, up to the items that it hands to processItems. */
    method ProcessNextBatch(now: int) returns (served: Option<Category>, items: seq<Item>)
      requires Valid()
      modifies this
      ensures Valid()
      ensures currentCycle == [] ==> served == None && items == [] && buffers == old(buffers)
      ensures currentCycle != [] ==>
        Serves(old(buffers), Upcoming(currentCycle, old(cyclePos))[0], now, served, buffers) &&
        Upcoming(currentCycle, cyclePos) == Advance(Upcoming(currentCycle, old(cyclePos)))
      ensures items == match served case None => [] case Some(c) => old(buffers)[c].Batch()
    {
      served, items := None, [];
      if |currentCycle| == 0 {
        return;
      }
      var priority := currentCycle[cyclePos];
      AdvanceUpcoming(currentCycle, cyclePos);
      cyclePos := (cyclePos + 1) % |currentCycle|;
      served := FindReady(buffers, priority, now);
      if served.Some? {
        var c := served.value;
        PollShrinks(buffers[c], now);
        items := buffers[c].Batch();
        ghost var before := buffers;
        buffers := buffers[c := buffers[c].Polled(now)];
        assert forall d :: d in buffers <==> d in before;
        assert forall d :: d in buffers ==> buffers[d].priority == before[d].priority;
      }
    }

    /** The loop over the map of buffers, which ends at the first match. */
    static method FindReady(buffers: Buffers, priority: Priority, now: int) returns (found: Option<Category>)
      ensures found.None? ==> forall c :: c in buffers && buffers[c].priority == priority ==> !buffers[c].Ready(now)
      ensures found.Some? ==>
        found.value in buffers && buffers[found.value].priority == priority && buffers[found.value].Ready(now)
    {
      var rest := buffers.Keys;
      while rest != {}
        invariant rest <= buffers.Keys
        invariant forall c :: c in buffers && c !in rest && buffers[c].priority == priority ==> !buffers[c].Ready(now)
        decreases |rest|
      {
        var c :| c in rest;
        if buffers[c].priority == priority && buffers[c].Ready(now) {
          return Some(c);
        }
        rest := rest - {c};
      }
      return None;
    }
  }
}
