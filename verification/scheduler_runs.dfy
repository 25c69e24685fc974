/** Fairness and termination of the Scheduler (internal/telemetry/scheduler.go), over runs of
    its calls of processNextBatch. */
module SchedulerRuns {
  import opened BufferModels
  import opened Outcomes
  import opened Schedulers
  import opened Wrappers

  // ---------------------------------------------------------------------------
  // Fairness
  // ---------------------------------------------------------------------------

  /** One call.  Between calls the buffers may change in any way. */
  datatype Call = Call(before: Buffers, slot: Priority, now: int, served: Option<Category>, after: Buffers)

  /** What is upcoming after `n` calls. */
  function UpcomingAfter(u: seq<Priority>, n: nat): (r: seq<Priority>)
    requires u != []
    ensures |r| == |u|
  {
    if n == 0 then u else Advance(UpcomingAfter(u, n - 1))
  }

  /** `call` is the `i`-th call from where `u` is upcoming. */
  ghost predicate IsCall(u: seq<Priority>, i: nat, call: Call)
    requires u != []
  {
    && ValidBuffers(call.before)
    && call.slot == UpcomingAfter(u, i)[0]
    && Serves(call.before, call.slot, call.now, call.served, call.after)
  }

  ghost predicate IsRun(u: seq<Priority>, calls: seq<Call>)
    requires u != []
  {
    forall i :: 0 <= i < |calls| ==> IsCall(u, i, calls[i])
  }

  function Slots(calls: seq<Call>): (r: seq<Priority>)
    ensures |r| == |calls|
    ensures forall i :: 0 <= i < |calls| ==> r[i] == calls[i].slot
  {
    seq(|calls|, i requires 0 <= i < |calls| => calls[i].slot)
  }

  lemma AdvanceCount(u: seq<Priority>)
    requires u != []
    ensures multiset(Advance(u)) == multiset(u)
  {
    assert u == [u[0]] + u[1..];
  }

  lemma {:induction false} UpcomingAfterCount(u: seq<Priority>, n: nat)
    requires u != []
    ensures multiset(UpcomingAfter(u, n)) == multiset(u)
  {
    if n > 0 {
      UpcomingAfterCount(u, n - 1);
      AdvanceCount(UpcomingAfter(u, n - 1));
    }
  }

  lemma {:induction false} UpcomingAfterSum(u: seq<Priority>, m: nat, n: nat)
    requires u != []
    ensures UpcomingAfter(UpcomingAfter(u, m), n) == UpcomingAfter(u, m + n)
  {
    if n > 0 {
      UpcomingAfterSum(u, m, n - 1);
    }
  }

  /** Within one round, the upcoming slots come one by one. */
  lemma {:induction false} FirstRound(u: seq<Priority>, n: nat)
    requires u != [] && n < |u|
    ensures UpcomingAfter(u, n) == u[n..] + u[..n]
  {
    if n > 0 {
      FirstRound(u, n - 1);
      assert u[n - 1..][1..] == u[n..] && u[..n - 1] + [u[n - 1]] == u[..n];
    }
  }

  /** The slots of a round from call `i` on are what is upcoming then. */
  lemma RoundSlots(u: seq<Priority>, calls: seq<Call>, i: nat, n: nat)
    requires u != [] && IsRun(u, calls) && n <= |u| && i + n <= |calls|
    ensures Slots(calls)[i..i + n] == UpcomingAfter(u, i)[..n]
  {
    forall k | 0 <= k < n
      ensures Slots(calls)[i + k] == UpcomingAfter(u, i)[k]
    {
      assert IsCall(u, i + k, calls[i + k]);
      UpcomingAfterSum(u, i, k);
      FirstRound(UpcomingAfter(u, i), k);
    }
  }

  lemma SameCount(s: seq<Priority>, v: seq<Priority>, u: seq<Priority>, n: nat)
    requires n == |v| && s == v[..n] && multiset(v) == multiset(u)
    ensures multiset(s) == multiset(u)
  {
    assert v[..n] == v;
  }

  lemma RoundCount(u: seq<Priority>, calls: seq<Call>, i: nat)
    requires u != [] && IsRun(u, calls) && i + |u| <= |calls|
    ensures multiset(Slots(calls)[i..i + |u|]) == multiset(u)
  {
    RoundSlots(u, calls, i, |u|);
    UpcomingAfterCount(u, i);
    SameCount(Slots(calls)[i..i + |u|], UpcomingAfter(u, i), u, |u|);
  }

  /** Any round of consecutive calls, wherever it starts, visits every priority that has a
      buffer exactly as often as its weight says, whatever the order of the cycle. */
  lemma ExactRounds(u: seq<Priority>, buffers: Buffers, calls: seq<Call>, i: nat, p: Priority)
    requires u != [] && IsCycle(u, buffers) && IsRun(u, calls) && i + |u| <= |calls|
    ensures multiset(Slots(calls)[i..i + |u|])[p] == if HasPriority(buffers, p) then Weight(p) else 0
  {
    RoundCount(u, calls, i);
  }

  /** That is 5, 4, 3, 2 and 1 times, for as many of the priorities as have a buffer. */
  lemma ExactShares(u: seq<Priority>, buffers: Buffers, calls: seq<Call>, i: nat)
    requires u != [] && IsCycle(u, buffers) && IsRun(u, calls) && i + |u| <= |calls|
    ensures var round := multiset(Slots(calls)[i..i + |u|]);
      && (HasPriority(buffers, Critical) ==> round[Critical] == 5) && (HasPriority(buffers, High) ==> round[High] == 4)
      && (HasPriority(buffers, Medium) ==> round[Medium] == 3) && (HasPriority(buffers, Low) ==> round[Low] == 2)
      && (HasPriority(buffers, Lowest) ==> round[Lowest] == 1)
  {
    RoundCount(u, calls, i);
  }

  lemma {:induction false} CountAtMostLength(s: seq<Priority>, p: Priority)
    ensures multiset(s)[p] <= |s|
  {
    if s != [] {
      assert s == s[..|s| - 1] + [s[|s| - 1]];
      CountAtMostLength(s[..|s| - 1], p);
    }
  }

  /** Any |cycle| - weight + 1 consecutive slots hold the priority. */
  lemma SoonVisited(u: seq<Priority>, buffers: Buffers, i: nat, p: Priority)
    requires u != [] && IsCycle(u, buffers) && HasPriority(buffers, p)
    ensures Weight(p) <= |u|
    ensures p in UpcomingAfter(u, i)[..|u| - Weight(p) + 1]
  {
    var v := UpcomingAfter(u, i);
    UpcomingAfterCount(u, i);
    CountAtMostLength(u, p);
    var n := |u| - Weight(p) + 1;
    assert v == v[..n] + v[n..];
    CountAtMostLength(v[n..], p);
    assert multiset(v)[p] == multiset(v[..n])[p] + multiset(v[n..])[p];
  }

  /** At this call the buffer is ready, and no other buffer has its priority. */
  ghost predicate ReadyAlone(call: Call, c: Category, p: Priority) {
    && c in call.before && call.before[c].priority == p && call.before[c].Ready(call.now)
    && forall d :: d in call.before && call.before[d].priority == p ==> d == c
  }

  ghost predicate ServedBetween(calls: seq<Call>, i: nat, k: nat, c: Category)
    requires k <= |calls|
  {
    exists j :: i <= j < k && calls[j].served == Some(c)
  }

  /** A buffer that is alone in its priority and ready at every call until it is served is
      served within |cycle| - weight + 1 calls. */
  lemma ServedSoon(u: seq<Priority>, buffers: Buffers, calls: seq<Call>, i: nat, c: Category, p: Priority)
    requires u != [] && IsCycle(u, buffers) && HasPriority(buffers, p) && IsRun(u, calls)
    requires i + |u| - Weight(p) + 1 <= |calls|
    requires forall k :: i <= k < i + |u| - Weight(p) + 1 && !ServedBetween(calls, i, k, c) ==> ReadyAlone(calls[k], c, p)
    ensures ServedBetween(calls, i, i + |u| - Weight(p) + 1, c)
  {
    var n := |u| - Weight(p) + 1;
    SoonVisited(u, buffers, i, p);
    RoundSlots(u, calls, i, n);
    var k :| 0 <= k < n && UpcomingAfter(u, i)[k] == p;
    assert Slots(calls)[i..i + n][k] == calls[i + k].slot;
    assert IsCall(u, i + k, calls[i + k]);
    if !ServedBetween(calls, i, i + k, c) {
      assert ReadyAlone(calls[i + k], c, p);
      assert Serves(calls[i + k].before, p, calls[i + k].now, calls[i + k].served, calls[i + k].after);
    }
  }

  // ---------------------------------------------------------------------------
  // Termination
  // ---------------------------------------------------------------------------

  function SizeAt(buffers: Buffers, c: Category): nat {
    if c in buffers then buffers[c].Size() else 0
  }

  /** All buffered items. */
  function Buffered(buffers: Buffers): nat {
    SizeAt(buffers, CategoryUnknown) + SizeAt(buffers, CategoryAll) + SizeAt(buffers, CategoryError)
    + SizeAt(buffers, CategoryTransaction) + SizeAt(buffers, CategorySpan) + SizeAt(buffers, CategoryLog)
    + SizeAt(buffers, CategoryLogByte) + SizeAt(buffers, CategoryMonitor) + SizeAt(buffers, CategoryTraceMetric)
  }

  ghost predicate SlotReady(buffers: Buffers, p: Priority, now: int) {
    exists c :: c in buffers && buffers[c].priority == p && buffers[c].Ready(now)
  }

  ghost predicate Work(buffers: Buffers, now: int) {
    exists c :: c in buffers && buffers[c].Ready(now)
  }

  /** The number of slots before the next one whose priority has a ready buffer. */
  ghost function Distance(u: seq<Priority>, buffers: Buffers, now: int): nat {
    if u == [] || SlotReady(buffers, u[0], now) then 0 else 1 + Distance(u[1..], buffers, now)
  }

  lemma {:induction false} DistanceBound(u: seq<Priority>, v: seq<Priority>, buffers: Buffers, now: int, p: Priority)
    requires p in u && SlotReady(buffers, p, now)
    ensures Distance(u, buffers, now) < |u|
    ensures Distance(u + v, buffers, now) == Distance(u, buffers, now)
  {
    if !SlotReady(buffers, u[0], now) {
      assert u == [u[0]] + u[1..];
      assert (u + v)[1..] == u[1..] + v;
      DistanceBound(u[1..], v, buffers, now, p);
    }
  }

  lemma ReadyStays(b: Buffer, now: int, later: int)
    requires b.Ready(now) && now <= later
    ensures b.Ready(later)
  {
  }

  lemma SlotReadyStays(buffers: Buffers, p: Priority, now: int, later: int)
    requires SlotReady(buffers, p, now) && now <= later
    ensures SlotReady(buffers, p, later)
  {
    var c :| c in buffers && buffers[c].priority == p && buffers[c].Ready(now);
    ReadyStays(buffers[c], now, later);
  }

  /** As time passes, more buffers become ready. */
  lemma {:induction false} DistanceShrinks(u: seq<Priority>, buffers: Buffers, now: int, later: int)
    requires now <= later
    ensures Distance(u, buffers, later) <= Distance(u, buffers, now)
  {
    if u != [] {
      if SlotReady(buffers, u[0], now) {
        SlotReadyStays(buffers, u[0], now, later);
      }
      DistanceShrinks(u[1..], buffers, now, later);
    }
  }

  /** The priority of every buffer is in the cycle. */
  lemma CycleCovers(u: seq<Priority>, buffers: Buffers, c: Category)
    requires IsCycle(u, buffers) && c in buffers
    ensures buffers[c].priority in u && u != []
  {
    var p := buffers[c].priority;
    assert HasPriority(buffers, p);
    assert multiset(u)[p] > 0;
    assert p in multiset(u);
  }

  /** Taking `n` items from one buffer takes `n` from all buffered items. */
  lemma BufferedAfter(before: Buffers, after: Buffers, c: Category, n: nat)
    requires SizeAt(after, c) + n == SizeAt(before, c) && forall d :: d != c ==> SizeAt(after, d) == SizeAt(before, d)
    ensures Buffered(after) + n == Buffered(before)
  {
    assert forall d :: SizeAt(after, d) == SizeAt(before, d) - if d == c then n else 0;
  }

  lemma ServedShrinks(before: Buffers, slot: Priority, now: int, c: Category, after: Buffers)
    requires ValidBuffers(before) && Serves(before, slot, now, Some(c), after)
    ensures ValidBuffers(after) && Buffered(after) + |before[c].Batch()| == Buffered(before)
    ensures |before[c].Batch()| > 0
  {
    PollShrinks(before[c], now);
    forall d | d != c
      ensures SizeAt(after, d) == SizeAt(before, d)
    {
    }
    BufferedAfter(before, after, c, |before[c].Batch()|);
  }

  /** A call that is made while there is work decreases the number of buffered items or, if it
      serves nothing, the distance to the next slot that can be served. */
  lemma CallDecreases(u: seq<Priority>, before: Buffers, now: int, later: int, served: Option<Category>, after: Buffers)
    requires ValidBuffers(before) && IsCycle(u, before) && Work(before, now) && now <= later
    requires u != [] && Serves(before, u[0], now, served, after)
    ensures if served.Some? then Buffered(after) < Buffered(before)
            else after == before && Distance(Advance(u), after, later) < Distance(u, before, now)
  {
    match served {
      case Some(c) => ServedShrinks(before, u[0], now, c, after);
      case None =>
        var c :| c in before && before[c].Ready(now);
        CycleCovers(u, before, c);
        assert SlotReady(before, before[c].priority, now) && !SlotReady(before, u[0], now);
        DistanceBound(u[1..], [u[0]], before, now, before[c].priority);
        DistanceShrinks(Advance(u), before, now, later);
    }
  }

  lemma ServesKeepsCycle(u: seq<Priority>, before: Buffers, slot: Priority, now: int, served: Option<Category>,
    after: Buffers)
    requires ValidBuffers(before) && IsCycle(u, before) && u != [] && Serves(before, slot, now, served, after)
    ensures ValidBuffers(after) && IsCycle(Advance(u), after)
  {
    AdvanceCount(u);
    if served.Some? {
      PollShrinks(before[served.value], now);
    }
    assert forall c :: c in before <==> c in after;
    assert forall c :: c in before ==> before[c].priority == after[c].priority;
    assert forall p: Priority :: HasPriority(after, p) == HasPriority(before, p);
  }

  function ItemsAt(buffers: Buffers, c: Category): seq<Item> {
    if c in buffers then buffers[c].Items() else []
  }

  /** What a call has processed of a category goes before what it has left. */
  lemma ServedItems(before: Buffers, slot: Priority, now: int, served: Option<Category>, after: Buffers, c: Category)
    requires ValidBuffers(before) && Serves(before, slot, now, served, after)
    ensures served == Some(c) ==> ItemsAt(before, c) == before[c].Batch() + ItemsAt(after, c)
    ensures served != Some(c) ==> ItemsAt(before, c) == ItemsAt(after, c)
  {
    if served == Some(c) {
      PollSplits(before[c], now);
    }
  }

  function ProcessedOf(processed: map<Category, seq<Item>>, c: Category): seq<Item> {
    if c in processed then processed[c] else []
  }

  /** What has been processed of category `c`, then what is buffered of it, is what was buffered at the start. */
  predicate Keeps(start: Buffers, processed: map<Category, seq<Item>>, buffers: Buffers, c: Category) {
    ProcessedOf(processed, c) + ItemsAt(buffers, c) == ItemsAt(start, c)
  }

  function AddProcessed(processed: map<Category, seq<Item>>, served: Option<Category>, items: seq<Item>): map<Category, seq<Item>> {
    if served.None? then processed else processed[served.value := ProcessedOf(processed, served.value) + items]
  }

  lemma CallKeeps(start: Buffers, processed: map<Category, seq<Item>>, before: Buffers, slot: Priority, now: int,
    served: Option<Category>, after: Buffers, items: seq<Item>, c: Category)
    requires ValidBuffers(before) && Serves(before, slot, now, served, after) && Keeps(start, processed, before, c)
    requires served.Some? ==> items == before[served.value].Batch()
    ensures Keeps(start, AddProcessed(processed, served, items), after, c)
  {
    ServedItems(before, slot, now, served, after, c);
  }

  /** The loop of run without new offers: work is looked for and a batch is processed until
      there is no work; time passes in between.  It ends, and of every category the items are processed
      from the front, each once, and the rest stays buffered in order. */
  method RunUntilIdle(s: Scheduler, start: int) returns (now: int, processed: map<Category, seq<Item>>)
    requires s.Valid()
    modifies s
    ensures s.Valid() && start <= now
    ensures !Work(s.buffers, now)
    ensures forall c: Category :: Keeps(old(s.buffers), processed, s.buffers, c)
  {
    now, processed := start, map[];
    ghost var atStart := s.buffers;
    var work := s.HasWork(now);
    while work
      invariant s.Valid() && start <= now
      invariant work == Work(s.buffers, now)
      invariant forall c: Category :: Keeps(atStart, processed, s.buffers, c)
      decreases Buffered(s.buffers), Distance(Upcoming(s.currentCycle, s.cyclePos), s.buffers, now), work
    {
      ghost var u, before := Upcoming(s.currentCycle, s.cyclePos), s.buffers;
      UpcomingIsCycle(s.currentCycle, s.cyclePos, before);
      ghost var ready :| ready in before && before[ready].Ready(now);
      CycleCovers(u, before, ready);
      var served, items := s.ProcessNextBatch(now);
      var later: int :| now <= later;
      CallDecreases(u, before, now, later, served, s.buffers);
      forall c: Category
        ensures Keeps(atStart, AddProcessed(processed, served, items), s.buffers, c)
      {
        CallKeeps(atStart, processed, before, u[0], now, served, s.buffers, items, c);
      }
      processed := AddProcessed(processed, served, items);
      now := later;
      work := s.HasWork(now);
    }
  }

  lemma UpcomingIsCycle(cycle: seq<Priority>, pos: nat, buffers: Buffers)
    requires pos <= |cycle| && IsCycle(cycle, buffers)
    ensures IsCycle(Upcoming(cycle, pos), buffers)
  {
    UpcomingCount(cycle, pos);
  }

  /** A run without offers in which every call finds work. */
  ghost predicate IsQuiet(u: seq<Priority>, calls: seq<Call>)
    requires u != []
  {
    && IsRun(u, calls)
    && (forall i :: 0 <= i < |calls| ==> Work(calls[i].before, calls[i].now))
    && (forall i :: 0 < i < |calls| ==> calls[i].before == calls[i - 1].after && calls[i - 1].now <= calls[i].now)
  }

  lemma QuietTail(u: seq<Priority>, calls: seq<Call>)
    requires u != [] && IsQuiet(u, calls) && calls != []
    ensures IsQuiet(Advance(u), calls[1..])
  {
    forall i | 0 <= i < |calls| - 1
      ensures IsCall(Advance(u), i, calls[1..][i])
    {
      assert IsCall(u, i + 1, calls[i + 1]);
      assert UpcomingAfter(u, 1) == Advance(u);
      UpcomingAfterSum(u, 1, i);
    }
  }

  lemma SizeWithin(buffers: Buffers, c: Category)
    ensures SizeAt(buffers, c) <= Buffered(buffers)
  {
    match c {
      case CategoryUnknown => case CategoryAll => case CategoryError => case CategoryTransaction =>
      case CategorySpan => case CategoryLog => case CategoryLogByte => case CategoryMonitor => case CategoryTraceMetric =>
    }
  }

  lemma Product(a: nat, b: nat, n: nat)
    requires a < b
    ensures a * n + n <= b * n
  {
    assert (a + 1) * n <= b * n;
  }

  lemma {:induction false} QuietMeasure(u: seq<Priority>, calls: seq<Call>)
    requires u != [] && calls != [] && IsQuiet(u, calls) && IsCycle(u, calls[0].before)
    ensures |calls| + |u| <= Buffered(calls[0].before) * |u| + Distance(u, calls[0].before, calls[0].now) + 1
    ensures Distance(u, calls[0].before, calls[0].now) < |u|
    decreases |calls|
  {
    var first := calls[0];
    var c :| c in first.before && first.before[c].Ready(first.now);
    CycleCovers(u, first.before, c);
    DistanceBound(u, [], first.before, first.now, first.before[c].priority);
    SizeWithin(first.before, c);
    assert IsCall(u, 0, first);
    Product(0, Buffered(first.before), |u|);
    if |calls| > 1 {
      var second := calls[1];
      assert first.slot == UpcomingAfter(u, 0)[0] == u[0];
      CallDecreases(u, first.before, first.now, second.now, first.served, first.after);
      ServesKeepsCycle(u, first.before, u[0], first.now, first.served, first.after);
      QuietTail(u, calls);
      QuietMeasure(Advance(u), calls[1..]);
      if first.served.Some? {
        Product(Buffered(second.before), Buffered(first.before), |u|);
      }
    }
  }

  /** Without new offers, work is found at most (buffered items) * |cycle| times. */
  lemma WorkRunsOut(u: seq<Priority>, calls: seq<Call>)
    requires u != [] && calls != [] && IsQuiet(u, calls) && IsCycle(u, calls[0].before)
    ensures |calls| <= Buffered(calls[0].before) * |u|
  {
    QuietMeasure(u, calls);
  }
}
