/** The goroutine of batchProcessor (batch_processor.go) with its callers, as a
    labelled transition system: one label per channel operation, clock advance or
    call.  The timer behaves as in Go 1.23 and later: Reset discards a pending tick. */
module BatchProcessors {

  const BATCH_SIZE: nat := 100

  datatype Timer = Off | Armed(deadline: nat)

  /** A Flush call.  `mark` is the number of items accepted when it was called. */
  datatype Flush = Waiting(mark: nat) | Received(mark: nat) | DoneClosed(mark: nat) | TimedOut(mark: nat)

  datatype Phase = Select | FlushDrain(flush: nat) | StopDrain | Exited

  datatype State<T> = State(
    timeout: nat,
    clock: nat,
    itemCh: seq<T>,
    items: seq<T>,
    firstAt: nat,
    timer: Timer,
    phase: Phase,
    flushes: seq<Flush>,
    cancelled: bool,
    accepted: seq<T>,
    sent: seq<seq<T>>)

  datatype Label<T> =
    | Send(item: T)
    | Advance(time: nat)
    | CallFlush
    | CallShutdown
    | FlushTimeout(flush: nat)
    | RecvItem
    | RecvTimer
    | RecvFlush(flush: nat)
    | RecvCancel
    | DrainItem
    | DrainEmpty

  function Initial<T>(timeout: nat): State<T> {
    State(timeout, 0, [], [], 0, Off, Select, [], false, [], [])
  }

  predicate Enabled<T>(s: State<T>, l: Label<T>) {
    match l
    case Send(_) => true
    case Advance(_) => true
    case CallFlush => true
    case CallShutdown => true
    case FlushTimeout(f) => f < |s.flushes| && (s.flushes[f].Waiting? || s.flushes[f].Received?)
    case RecvItem => s.phase.Select? && s.itemCh != []
    case RecvTimer => s.phase.Select? && s.timer.Armed? && s.timer.deadline <= s.clock
    case RecvFlush(f) => s.phase.Select? && f < |s.flushes| && s.flushes[f].Waiting?
    case RecvCancel => s.phase.Select? && s.cancelled
    case DrainItem => (s.phase.FlushDrain? || s.phase.StopDrain?) && s.itemCh != []
    case DrainEmpty => s.itemCh == [] && (s.phase.StopDrain? || (s.phase.FlushDrain? && s.phase.flush < |s.flushes|))
  }

  /** Hands the collected items to sendBatch. */
  function SendBatch<T>(s: State<T>): State<T> {
    s.(sent := s.sent + [s.items], items := [])
  }

  function SendNonEmpty<T>(s: State<T>): State<T> {
    if |s.items| > 0 then SendBatch(s) else s
  }

  function Next<T>(s: State<T>, l: Label<T>): State<T>
    requires Enabled(s, l)
  {
    match l
    case Send(item) =>
      if |s.itemCh| < BATCH_SIZE then s.(itemCh := s.itemCh + [item], accepted := s.accepted + [item]) else s
    case Advance(time) => s.(clock := s.clock + time)
    case CallFlush => s.(flushes := s.flushes + [Waiting(|s.accepted|)])
    case CallShutdown => s.(cancelled := true)
    case FlushTimeout(f) => s.(flushes := s.flushes[f := TimedOut(s.flushes[f].mark)])
    case RecvItem =>
      var s1 := if s.items == [] then s.(timer := Armed(s.clock + s.timeout), firstAt := s.clock) else s;
      var s2 := s1.(itemCh := s.itemCh[1..], items := s.items + [s.itemCh[0]]);
      if |s2.items| >= BATCH_SIZE then SendBatch(s2) else s2
    case RecvTimer => SendNonEmpty(s.(timer := Off))
    case RecvFlush(f) => s.(phase := FlushDrain(f), flushes := s.flushes[f := Received(s.flushes[f].mark)])
    case RecvCancel => s.(phase := StopDrain)
    case DrainItem => s.(itemCh := s.itemCh[1..], items := s.items + [s.itemCh[0]])
    case DrainEmpty =>
      var s1 := SendNonEmpty(s);
      if s.phase.StopDrain? then s1.(phase := Exited)
      else if s.flushes[s.phase.flush].Received? then
        s1.(phase := Select, flushes := s.flushes[s.phase.flush := DoneClosed(s.flushes[s.phase.flush].mark)])
      else s1.(phase := Select)
  }

  ghost predicate Step<T(!new)>(s: State<T>, s': State<T>) {
    exists l :: Enabled(s, l) && s' == Next(s, l)
  }

  ghost predicate IsRun<T(!new)>(ss: seq<State<T>>) {
    && |ss| > 0
    && (exists timeout: nat :: ss[0] == Initial(timeout))
    && forall k :: 0 < k < |ss| ==> Step(ss[k - 1], ss[k])
  }

  function Concat<T>(batches: seq<seq<T>>): seq<T> {
    if batches == [] then [] else batches[0] + Concat(batches[1..])
  }

  lemma {:induction false} ConcatAppend<T>(batches: seq<seq<T>>, b: seq<T>)
    ensures Concat(batches + [b]) == Concat(batches) + b
  {
    if batches == [] {
      assert batches + [b] == [b];
    } else {
      assert (batches + [b])[1..] == batches[1..] + [b];
      ConcatAppend(batches[1..], b);
    }
  }

  /** What is collected, and when it is due. */
  ghost predicate PhaseInv<T>(s: State<T>) {
    && (s.phase.Select? ==> |s.items| < BATCH_SIZE)
    && (s.phase.Select? && s.items != [] ==> s.timer == Armed(s.firstAt + s.timeout))
    && (s.phase.Exited? ==> s.items == [])
    && (s.phase.FlushDrain? ==> s.phase.flush < |s.flushes|)
  }

  /** Where the accepted items are, and what the flushes may rely on. */
  ghost predicate LedgerInv<T>(s: State<T>) {
    && s.accepted == Concat(s.sent) + s.items + s.itemCh
    && (forall f :: 0 <= f < |s.flushes| ==> s.flushes[f].mark <= |s.accepted|)
    && (forall f :: 0 <= f < |s.flushes| && s.flushes[f].DoneClosed? ==> s.flushes[f].mark <= |Concat(s.sent)|)
    && (forall b :: 0 <= b < |s.sent| ==> s.sent[b] != [])
  }

  ghost predicate Inv<T>(s: State<T>) {
    PhaseInv(s) && LedgerInv(s)
  }

  lemma SendBatchInv<T>(s: State<T>)
    ensures Concat(SendBatch(s).sent) + SendBatch(s).items == Concat(s.sent) + s.items
  {
    ConcatAppend(s.sent, s.items);
  }

  lemma CallerStep<T>(s: State<T>, l: Label<T>)
    requires Inv(s) && Enabled(s, l)
    requires l.Send? || l.Advance? || l.CallFlush? || l.CallShutdown? || l.FlushTimeout? || l.RecvCancel? || l.RecvFlush?
    ensures Inv(Next(s, l))
  {
  }

  /** Moving the first waiting item to the collected ones keeps the ledger. */
  lemma MovedItem<T>(s: State<T>)
    requires LedgerInv(s) && s.itemCh != []
    ensures LedgerInv(s.(itemCh := s.itemCh[1..], items := s.items + [s.itemCh[0]]))
  {
    assert s.itemCh == [s.itemCh[0]] + s.itemCh[1..];
  }

  lemma SentBatch<T>(s: State<T>)
    requires LedgerInv(s) && s.items != []
    ensures LedgerInv(SendBatch(s))
  {
    ConcatAppend(s.sent, s.items);
  }

  lemma CollectStep<T>(s: State<T>, l: Label<T>)
    requires Inv(s) && Enabled(s, l) && (l.RecvItem? || l.DrainItem?)
    ensures Inv(Next(s, l))
  {
    var s1 := if l.RecvItem? && s.items == [] then s.(timer := Armed(s.clock + s.timeout), firstAt := s.clock) else s;
    MovedItem(s1);
    var s2 := s1.(itemCh := s.itemCh[1..], items := s.items + [s.itemCh[0]]);
    if l.RecvItem? && |s2.items| >= BATCH_SIZE {
      SentBatch(s2);
    }
  }

  lemma TimerStep<T>(s: State<T>)
    requires Inv(s) && Enabled(s, RecvTimer)
    ensures Inv(Next(s, RecvTimer))
  {
    SendBatchInv(s.(timer := Off));
  }

  /** When a drain ends, everything accepted so far has been handed to sendBatch. */
  lemma DrainSendsAll<T>(s: State<T>)
    requires LedgerInv(s) && s.itemCh == []
    ensures Concat(SendNonEmpty(s).sent) == s.accepted && SendNonEmpty(s).items == []
    ensures forall b :: 0 <= b < |SendNonEmpty(s).sent| ==> SendNonEmpty(s).sent[b] != []
  {
    SendBatchInv(s);
  }

  /** What the end of a drain changes. */
  lemma DrainEndFields<T>(s: State<T>)
    requires Enabled(s, DrainEmpty)
    ensures var r, f := Next(s, DrainEmpty), s.phase;
      && r.sent == SendNonEmpty(s).sent && r.items == [] && r.itemCh == [] && r.accepted == s.accepted
      && r.phase == (if f.StopDrain? then Exited else Select)
      && r.flushes == if f.FlushDrain? && s.flushes[f.flush].Received?
                      then s.flushes[f.flush := DoneClosed(s.flushes[f.flush].mark)] else s.flushes
  {
  }

  lemma DrainEndStep<T>(s: State<T>)
    requires Inv(s) && Enabled(s, DrainEmpty)
    ensures Inv(Next(s, DrainEmpty))
  {
    DrainEndFields(s);
    DrainSendsAll(s);
  }

  lemma StepKeepsInv<T>(s: State<T>, l: Label<T>)
    requires Inv(s) && Enabled(s, l)
    ensures Inv(Next(s, l))
  {
    match l {
      case RecvItem => CollectStep(s, l);
      case DrainItem => CollectStep(s, l);
      case RecvTimer => TimerStep(s);
      case DrainEmpty => DrainEndStep(s);
      case _ => CallerStep(s, l);
    }
  }

  lemma {:induction false} RunInv<T(!new)>(ss: seq<State<T>>, k: nat)
    requires IsRun(ss) && k < |ss|
    ensures Inv(ss[k])
  {
    if k > 0 {
      RunInv(ss, k - 1);
      assert Step(ss[k - 1], ss[k]);
      var l :| Enabled(ss[k - 1], l) && ss[k] == Next(ss[k - 1], l);
      StepKeepsInv(ss[k - 1], l);
    }
  }

  /** In every run the batches sent, then the items collected, then the channel,
      are the accepted items in order. */
  lemma SentInOrder<T(!new)>(ss: seq<State<T>>, k: nat)
    requires IsRun(ss) && k < |ss|
    ensures ss[k].accepted == Concat(ss[k].sent) + ss[k].items + ss[k].itemCh
    ensures forall b :: 0 <= b < |ss[k].sent| ==> ss[k].sent[b] != []
  {
    RunInv(ss, k);
  }

  /** State `j` is the last one before `k` with nothing collected. */
  ghost predicate LastEmpty<T>(ss: seq<State<T>>, j: nat, k: nat)
    requires j <= k < |ss|
  {
    ss[j].phase.Select? && ss[j].items == [] && forall m :: j < m <= k ==> ss[m].items != []
  }

  lemma FirstArrival<T>(s: State<T>, l: Label<T>)
    requires Inv(s) && Enabled(s, l) && Next(s, l).phase.Select? && Next(s, l).items != []
    ensures s.phase.Select? && Next(s, l).firstAt == if s.items == [] then s.clock else s.firstAt
    ensures Next(s, l).timeout == s.timeout
  {
  }

  lemma {:induction false} ArrivalOf<T(!new)>(ss: seq<State<T>>, k: nat)
    requires IsRun(ss) && k < |ss| && ss[k].phase.Select? && ss[k].items != []
    ensures exists j :: 0 <= j < k && LastEmpty(ss, j, k) && ss[k].firstAt == ss[j].clock
  {
    RunInv(ss, k - 1);
    assert Step(ss[k - 1], ss[k]);
    var l :| Enabled(ss[k - 1], l) && ss[k] == Next(ss[k - 1], l);
    FirstArrival(ss[k - 1], l);
    if ss[k - 1].items == [] {
      assert LastEmpty(ss, k - 1, k);
    } else {
      ArrivalOf(ss, k - 1);
      var j :| 0 <= j < k - 1 && LastEmpty(ss, j, k - 1) && ss[k - 1].firstAt == ss[j].clock;
      assert LastEmpty(ss, j, k);
    }
  }

  /** Whenever the goroutine waits in its select, fewer than a batch is collected; and
      if anything is, the timer is set to batchTimeout after the first item arrived. */
  lemma SelectIsArmed<T(!new)>(ss: seq<State<T>>, k: nat)
    requires IsRun(ss) && k < |ss| && ss[k].phase.Select?
    ensures |ss[k].items| < BATCH_SIZE
    ensures ss[k].items != [] ==>
              exists j :: 0 <= j < k && LastEmpty(ss, j, k) && ss[k].timer == Armed(ss[j].clock + ss[k].timeout)
  {
    RunInv(ss, k);
    if ss[k].items != [] {
      ArrivalOf(ss, k);
      var j :| 0 <= j < k && LastEmpty(ss, j, k) && ss[k].firstAt == ss[j].clock;
      assert ss[k].timer == Armed(ss[j].clock + ss[k].timeout);
    }
  }

  /** A batch sent because it is full has exactly BATCH_SIZE items; a batch sent by the timer has fewer. */
  lemma BatchSizes<T(!new)>(ss: seq<State<T>>, k: nat, l: Label<T>)
    requires IsRun(ss) && k < |ss| && Enabled(ss[k], l) && (l.RecvItem? || l.RecvTimer?)
    requires |Next(ss[k], l).sent| > |ss[k].sent|
    ensures |Next(ss[k], l).sent| == |ss[k].sent| + 1
    ensures var b := Next(ss[k], l).sent[|ss[k].sent|];
            if l.RecvItem? then |b| == 100 else 0 < |b| < 100
  {
    RunInv(ss, k);
  }

  /** Send is accepted exactly if the channel has room, and then its item is the last one in it. */
  lemma SendAccepts<T(!new)>(ss: seq<State<T>>, k: nat, item: T)
    requires IsRun(ss) && k < |ss|
    ensures var s, s' := ss[k], Next(ss[k], Send(item));
      && |s.itemCh| <= 100
      && (|s.itemCh| < 100 ==> s'.accepted == s.accepted + [item] && s'.itemCh == s.itemCh + [item])
      && (|s.itemCh| == 100 ==> s' == s)
  {
    ChannelBound(ss, k);
  }

  lemma {:induction false} ChannelBound<T(!new)>(ss: seq<State<T>>, k: nat)
    requires IsRun(ss) && k < |ss|
    ensures |ss[k].itemCh| <= BATCH_SIZE
  {
    if k > 0 {
      ChannelBound(ss, k - 1);
      assert Step(ss[k - 1], ss[k]);
    }
  }

  /** When the timer fires, all that is collected is sent as one batch, and nothing is if nothing is. */
  lemma TimerSends<T(!new)>(ss: seq<State<T>>, k: nat)
    requires IsRun(ss) && k < |ss| && Enabled(ss[k], RecvTimer)
    ensures var s, s' := ss[k], Next(ss[k], RecvTimer);
      && s'.sent == s.sent + (if s.items == [] then [] else [s.items]) && s'.items == [] && s'.itemCh == s.itemCh
  {
  }

  /** Whatever is collected is due at a known time: from then on the timer fires if it is selected. */
  lemma DueAtDeadline<T(!new)>(ss: seq<State<T>>, k: nat)
    requires IsRun(ss) && k < |ss| && ss[k].phase.Select? && ss[k].items != []
    ensures Enabled(ss[k], RecvTimer) <==> ss[k].clock >= ss[k].firstAt + ss[k].timeout
  {
    RunInv(ss, k);
  }

  predicate Draining<T>(s: State<T>) {
    s.phase.FlushDrain? || s.phase.StopDrain?
  }

  /** What the drain that began in state `a` has to send when it ends in state `k`. */
  function Drained<T>(ss: seq<State<T>>, a: nat, k: nat): seq<T>
    requires a <= k < |ss| && |ss[a].accepted| <= |ss[k].accepted|
  {
    ss[a].items + ss[a].itemCh + ss[k].accepted[|ss[a].accepted|..]
  }

  lemma SuffixJoin<T>(base: seq<T>, before: seq<T>, after: seq<T>, n: nat)
    requires n <= |before| && before <= after
    ensures base + before[n..] + after[|before|..] == base + after[n..]
  {
  }

  lemma {:induction false} DrainCollects<T(!new)>(ss: seq<State<T>>, a: nat, k: nat)
    requires IsRun(ss) && a <= k < |ss| && ss[a].phase.Select? && forall m :: a < m <= k ==> Draining(ss[m])
    ensures ss[k].sent == ss[a].sent && ss[a].accepted <= ss[k].accepted
    ensures ss[k].items + ss[k].itemCh == Drained(ss, a, k)
  {
    if a < k {
      DrainCollects(ss, a, k - 1);
      assert Step(ss[k - 1], ss[k]);
      var l :| Enabled(ss[k - 1], l) && ss[k] == Next(ss[k - 1], l);
      DrainStep(ss[k - 1], l);
      SuffixJoin(ss[a].items + ss[a].itemCh, ss[k - 1].accepted, ss[k].accepted, |ss[a].accepted|);
    } else {
      assert ss[a].accepted[|ss[a].accepted|..] == [];
    }
  }

  /** A step that neither ends nor leaves a drain moves items along, and accepts more at the end. */
  lemma DrainStep<T>(s: State<T>, l: Label<T>)
    requires Enabled(s, l) && Draining(Next(s, l))
    ensures var s' := Next(s, l);
      && s'.sent == s.sent && s.accepted <= s'.accepted
      && s'.items + s'.itemCh == s.items + s.itemCh + s'.accepted[|s.accepted|..]
  {
    if l.DrainItem? {
      assert s.itemCh == [s.itemCh[0]] + s.itemCh[1..];
    }
  }

  /** A flush or a shutdown sends one batch of all that was collected and in the channel when it
      began, and of all that was accepted until it ended: no limit applies to it. */
  lemma DrainBatch<T(!new)>(ss: seq<State<T>>, a: nat, k: nat)
    requires IsRun(ss) && a < k < |ss| && ss[a].phase.Select? && (forall m :: a < m <= k ==> Draining(ss[m]))
    requires Enabled(ss[k], DrainEmpty)
    ensures |ss[a].accepted| <= |ss[k].accepted|
    ensures Next(ss[k], DrainEmpty).sent
            == ss[a].sent + if Drained(ss, a, k) == [] then [] else [Drained(ss, a, k)]
  {
    DrainCollects(ss, a, k);
    assert ss[k].items + ss[k].itemCh == ss[k].items;
    DrainEndFields(ss[k]);
  }

  lemma AppendStep<T(!new)>(ss: seq<State<T>>, l: Label<T>) returns (r: seq<State<T>>)
    requires IsRun(ss) && Enabled(ss[|ss| - 1], l)
    ensures IsRun(r) && |r| == |ss| + 1 && ss <= r && r[|ss|] == Next(ss[|ss| - 1], l)
  {
    r := ss + [Next(ss[|ss| - 1], l)];
    forall k | 0 < k < |r|
      ensures Step(r[k - 1], r[k])
    {
      if k < |ss| {
        assert Step(ss[k - 1], ss[k]);
      }
    }
  }

  lemma {:induction false} LongDrain<T(!new)>(timeout: nat, item: T, n: nat) returns (ss: seq<State<T>>)
    ensures IsRun(ss)
    ensures var s := ss[|ss| - 1];
      s.phase == FlushDrain(0) && |s.flushes| == 1 && s.itemCh == [] && s.sent == [] && |s.items| == n
  {
    if n == 0 {
      ss := [Initial(timeout)];
      ss := AppendStep(ss, CallFlush);
      ss := AppendStep(ss, RecvFlush(0));
    } else {
      ss := LongDrain(timeout, item, n - 1);
      ss := AppendStep(ss, Send(item));
      ss := AppendStep(ss, DrainItem);
    }
  }

  /** A flush can send a batch of any size, however small BATCH_SIZE is: senders can keep it draining. */
  lemma FlushBatchOfAnySize<T(!new)>(timeout: nat, item: T, n: nat) returns (ss: seq<State<T>>)
    requires n > 0
    ensures IsRun(ss)
    ensures |ss[|ss| - 1].sent| == 1 && |ss[|ss| - 1].sent[0]| == n
  {
    ss := LongDrain(timeout, item, n);
    ss := AppendStep(ss, DrainEmpty);
  }

  /** The goroutine can end the drain it is in. */
  lemma {:induction false} DrainEnds<T(!new)>(ss: seq<State<T>>) returns (r: seq<State<T>>)
    requires IsRun(ss) && ss[|ss| - 1].phase.FlushDrain?
    ensures IsRun(r) && ss <= r && r[|r| - 1].phase.Select?
    ensures var s, s' := ss[|ss| - 1], r[|r| - 1];
      && |s'.flushes| == |s.flushes| && s.phase.flush < |s.flushes|
      && forall f :: 0 <= f < |s.flushes| ==>
        s'.flushes[f] == if f == s.phase.flush && s.flushes[f].Received? then DoneClosed(s.flushes[f].mark) else s.flushes[f]
    decreases |ss[|ss| - 1].itemCh|
  {
    RunInv(ss, |ss| - 1);
    if ss[|ss| - 1].itemCh != [] {
      r := AppendStep(ss, DrainItem);
      r := DrainEnds(r);
    } else {
      r := AppendStep(ss, DrainEmpty);
      DrainEndFields(ss[|ss| - 1]);
    }
  }

  /** While the goroutine runs and has not seen a cancellation, every flush that has not returned can be
      answered, and then everything accepted before it was called has been sent. */
  lemma FlushCanReturn<T(!new)>(ss: seq<State<T>>, f: nat) returns (r: seq<State<T>>)
    requires IsRun(ss) && (ss[|ss| - 1].phase.Select? || ss[|ss| - 1].phase.FlushDrain?)
    requires f < |ss[|ss| - 1].flushes| && ss[|ss| - 1].flushes[f].Waiting?
    ensures IsRun(r) && ss <= r && f < |r[|r| - 1].flushes| && r[|r| - 1].flushes[f].DoneClosed?
  {
    r := ss;
    if ss[|ss| - 1].phase.FlushDrain? {
      r := DrainEnds(r);
    }
    r := AppendStep(r, RecvFlush(f));
    r := DrainEnds(r);
  }

  /** What one step does to the accepted items, the flush marks and an exited goroutine. */
  ghost predicate Grows<T>(s: State<T>, s': State<T>) {
    && s.accepted <= s'.accepted
    && |s.flushes| <= |s'.flushes| <= |s.flushes| + 1
    && (forall f :: 0 <= f < |s.flushes| ==> s'.flushes[f].mark == s.flushes[f].mark)
    && (|s.flushes| < |s'.flushes| ==> s'.flushes[|s.flushes|].mark == |s.accepted|)
    && Exits(s, s')
  }

  /** The goroutine ends having sent everything, and then nothing more. */
  ghost predicate Exits<T>(s: State<T>, s': State<T>) {
    && (s.phase.Exited? ==> s'.phase.Exited? && s'.sent == s.sent)
    && (s'.phase.Exited? && !s.phase.Exited? ==> Concat(s'.sent) == s.accepted == s'.accepted)
  }

  ghost predicate AllGrow<T>(ss: seq<State<T>>) {
    forall k :: 0 < k < |ss| ==> Grows(ss[k - 1], ss[k])
  }

  lemma DrainEndGrows<T>(s: State<T>)
    requires LedgerInv(s) && Enabled(s, DrainEmpty)
    ensures Grows(s, Next(s, DrainEmpty))
  {
    DrainEndFields(s);
    DrainSendsAll(s);
  }

  lemma NextGrows<T>(s: State<T>, l: Label<T>)
    requires Inv(s) && Enabled(s, l)
    ensures Grows(s, Next(s, l))
  {
    if l.DrainEmpty? {
      DrainEndGrows(s);
    }
  }

  lemma RunGrows<T(!new)>(ss: seq<State<T>>)
    requires IsRun(ss)
    ensures AllGrow(ss)
  {
    forall k | 0 < k < |ss|
      ensures Grows(ss[k - 1], ss[k])
    {
      RunInv(ss, k - 1);
      assert Step(ss[k - 1], ss[k]);
      var l :| Enabled(ss[k - 1], l) && ss[k] == Next(ss[k - 1], l);
      NextGrows(ss[k - 1], l);
    }
  }

  lemma {:induction false} MarksKept<T>(ss: seq<State<T>>, j: nat, k: nat, f: nat)
    requires AllGrow(ss) && j <= k < |ss| && f == |ss[j].flushes|
    ensures ss[j].accepted <= ss[k].accepted && |ss[j].flushes| <= |ss[k].flushes|
    ensures f < |ss[k].flushes| ==> ss[k].flushes[f].mark >= |ss[j].accepted|
    decreases k
  {
    if j < k {
      MarksKept(ss, j, k - 1, f);
      assert Grows(ss[k - 1], ss[k]);
    }
  }

  /** A Flush whose `done` was closed returned after everything accepted before it was called had been sent. */
  lemma FlushGuarantee<T(!new)>(ss: seq<State<T>>, f: nat, j: nat, k: nat)
    requires IsRun(ss) && j <= k < |ss|
    requires f == |ss[j].flushes| && f < |ss[k].flushes| && ss[k].flushes[f].DoneClosed?
    ensures ss[j].accepted <= Concat(ss[k].sent)
  {
    RunInv(ss, k);
    RunGrows(ss);
    MarksKept(ss, j, k, f);
  }

  /** The goroutine ends in the step from state `e`. */
  ghost predicate ExitsAt<T>(ss: seq<State<T>>, e: nat) {
    e + 1 < |ss| && !ss[e].phase.Exited? && ss[e + 1].phase.Exited?
  }

  /** What has been sent from then on is what had been accepted by then. */
  lemma {:induction false} SentAtExit<T>(ss: seq<State<T>>, j: nat, k: nat) returns (e: nat)
    requires AllGrow(ss) && j <= k < |ss| && !ss[j].phase.Exited? && ss[k].phase.Exited?
    ensures j <= e < k && ExitsAt(ss, e) && Concat(ss[k].sent) == ss[e].accepted
    decreases k
  {
    assert Grows(ss[k - 1], ss[k]);
    if ss[k - 1].phase.Exited? {
      e := SentAtExit(ss, j, k - 1);
    } else {
      e := k - 1;
    }
  }

  /** After Shutdown has returned, exactly what was accepted before the goroutine ended has been
      sent; the rest is what Send put into the channel later. */
  lemma ShutdownGuarantee<T(!new)>(ss: seq<State<T>>, j: nat, k: nat)
    requires IsRun(ss) && j <= k < |ss| && !ss[j].phase.Exited? && ss[k].phase.Exited?
    ensures ss[j].accepted <= Concat(ss[k].sent)
    ensures exists e: nat :: j <= e < k && ExitsAt(ss, e) && Concat(ss[k].sent) == ss[e].accepted
    ensures ss[k].accepted == Concat(ss[k].sent) + ss[k].itemCh
  {
    RunInv(ss, k);
    RunGrows(ss);
    var e := SentAtExit(ss, j, k);
    MarksKept(ss, j, e, |ss[j].flushes|);
  }

  /** The step from state `m` is a Send that is accepted after the goroutine has ended. */
  ghost predicate SentTooLate<T>(ss: seq<State<T>>, m: nat) {
    m + 1 < |ss| && ss[m].phase.Exited? && ss[m + 1].accepted != ss[m].accepted
  }

  lemma {:induction false} StaysExited<T>(ss: seq<State<T>>, m: nat, k: nat)
    requires AllGrow(ss) && m <= k < |ss| && ss[m].phase.Exited?
    ensures ss[k].phase.Exited?
    decreases k
  {
    if m < k {
      StaysExited(ss, m, k - 1);
      assert Grows(ss[k - 1], ss[k]);
    }
  }

  lemma {:induction false} AllSentIff<T>(ss: seq<State<T>>, k: nat)
    requires AllGrow(ss) && k < |ss| && ss[k].phase.Exited? && !ss[0].phase.Exited?
    ensures Concat(ss[k].sent) <= ss[k].accepted
    ensures Concat(ss[k].sent) == ss[k].accepted <==> forall m: nat :: m < k ==> !SentTooLate(ss, m)
  {
    var s, s' := ss[k - 1], ss[k];
    assert Grows(s, s');
    if s.phase.Exited? {
      AllSentIff(ss, k - 1);
      assert SentTooLate(ss, k - 1) <==> s'.accepted != s.accepted;
    } else {
      forall m: nat | m < k
        ensures !SentTooLate(ss, m)
      {
        if ss[m].phase.Exited? {
          StaysExited(ss, m, k - 1);
        }
      }
    }
  }

  /** Once the goroutine has ended, everything that was accepted has been sent exactly if no Send was
      accepted after that. */
  lemma ShutdownSendsAllIff<T(!new)>(ss: seq<State<T>>, k: nat)
    requires IsRun(ss) && k < |ss| && ss[k].phase.Exited?
    ensures Concat(ss[k].sent) == ss[k].accepted <==> forall m: nat :: m < k ==> !SentTooLate(ss, m)
  {
    RunGrows(ss);
    AllSentIff(ss, k);
  }

  /** A run with such a Send: its item is accepted and stays in the channel. */
  lemma SendAfterShutdown<T(!new)>(timeout: nat, item: T) returns (ss: seq<State<T>>)
    ensures IsRun(ss)
    ensures var s := ss[|ss| - 1];
      s.phase.Exited? && s.accepted == [item] && s.itemCh == [item] && s.sent == []
  {
    ss := [Initial(timeout)];
    ss := AppendStep(ss, CallShutdown);
    ss := AppendStep(ss, RecvCancel);
    ss := AppendStep(ss, DrainEmpty);
    ss := AppendStep(ss, Send(item));
  }
}
