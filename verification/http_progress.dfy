/** What the calls on HTTPTransport (transport.go) are decided by, in every run, and that each of
    them can come to its end. */
module HttpProgress {
  import opened HttpBatches
  import opened HttpRuns

  // ---------------------------------------------------------------------------
  // Room in a batch
  // ---------------------------------------------------------------------------

  ghost predicate WithinCapacity<E>(s: State<E>) {
    forall b :: 0 <= b < |s.batches| ==> |s.batches[b].items| <= s.capacity
  }

  lemma ProcCapacity<E>(s: State<E>, i: nat)
    requires WellFormed(s) && ProcReady(s, i) && WithinCapacity(s)
    ensures StepProc(s, i).capacity == s.capacity && WithinCapacity(StepProc(s, i))
  {
  }

  lemma StepCapacity<E>(s: State<E>, l: Label<E>)
    requires WellFormed(s) && Enabled(s, l) && WithinCapacity(s)
    ensures Next(s, l).capacity == s.capacity && WithinCapacity(Next(s, l))
  {
    if l.ProcStep? {
      ProcCapacity(s, l.proc);
    }
  }

  lemma LabelAt<E(!new)>(ss: seq<State<E>>, k: nat) returns (l: Label<E>)
    requires IsRun(ss) && 0 < k < |ss|
    ensures Inv(ss[k - 1]) && Enabled(ss[k - 1], l) && ss[k] == Next(ss[k - 1], l)
  {
    RunInv(ss, k - 1);
    assert StepAt(ss, k);
    l :| Enabled(ss[k - 1], l) && ss[k] == Next(ss[k - 1], l);
  }

  /** No batch ever holds more events than the configured buffer size. */
  lemma {:induction false} BatchBound<E(!new)>(ss: seq<State<E>>, k: nat)
    requires IsRun(ss) && k < |ss|
    ensures ss[k].capacity == ss[0].capacity && WithinCapacity(ss[k])
  {
    if k == 0 {
      var capacity: nat :| ss[0] == Initial(capacity);
    } else {
      BatchBound(ss, k - 1);
      var l := LabelAt(ss, k);
      StepCapacity(ss[k - 1], l);
    }
  }

  /** Call `i` gets its event into the batch that it has: last in its queue, or, from an empty queue,
      straight to the worker. */
  ghost predicate Accepts<E>(s: State<E>, s': State<E>, i: nat)
    requires i < |s.procs| && s.procs[i].SendSelect? && s.procs[i].batch < |s.batches| == |s'.batches|
  {
    var e, b := s.procs[i].event, s.procs[i].batch;
    && s'.accepted == s.accepted + [e] && s'.overflowed == s.overflowed
    && ((s'.batches[b].items == s.batches[b].items + [e] && s'.taken == s.taken && |s.batches[b].items| < s.capacity)
        || (s'.batches[b].items == s.batches[b].items == [] && s'.taken == s.taken + [e]
            && s.worker == Loop(b) && s'.worker == Busy(b, e)))
  }

  /** The batch of call `i` is full, and its event is counted as overflow. */
  ghost predicate Overflows<E>(s: State<E>, s': State<E>, i: nat)
    requires i < |s.procs| && s.procs[i].SendSelect? && s.procs[i].batch < |s.batches|
  {
    var e, b := s.procs[i].event, s.procs[i].batch;
    && s'.accepted == s.accepted && s'.overflowed == s.overflowed + [e]
    && |s.batches[b].items| == s.capacity && s'.batches == s.batches
  }

  /** Call `i` has decided about its event: in the current batch, which is open. */
  ghost predicate Decided<E>(s: State<E>, s': State<E>, i: nat) {
    && i < |s.procs| && i < |s'.procs| && s.procs[i].SendSelect?
    && var b := s.procs[i].batch;
       && b < |s.batches| == |s'.batches| && b == Current(s) && !s.batches[b].itemsClosed
       && s'.procs[i] == SendRelease(b)
       && (Accepts(s, s', i) || Overflows(s, s', i))
       && (|s.batches[b].items| < s.capacity ==> Accepts(s, s', i))
  }

  lemma StepSelect<E>(s: State<E>, l: Label<E>, i: nat)
    requires Inv(s) && Enabled(s, l) && WithinCapacity(s)
    requires i < |s.procs| && s.procs[i].SendSelect? && Next(s, l).procs[i] != s.procs[i]
    ensures Decided(s, Next(s, l), i)
  {
  }

  /** The select of SendEvent: the batch is the current one and open; with room in it the event is
      accepted, and only into a full one it is not. */
  lemma SelectDecides<E(!new)>(ss: seq<State<E>>, k: nat, i: nat)
    requires IsRun(ss) && 0 < k < |ss| && i < |ss[k - 1].procs| && i < |ss[k].procs|
    requires ss[k - 1].procs[i].SendSelect? && ss[k].procs[i] != ss[k - 1].procs[i]
    ensures Decided(ss[k - 1], ss[k], i)
  {
    BatchBound(ss, k - 1);
    var l := LabelAt(ss, k);
    StepSelect(ss[k - 1], l, i);
  }

  lemma StepOverflow<E>(s: State<E>, l: Label<E>) returns (i: nat)
    requires Inv(s) && Enabled(s, l) && WithinCapacity(s) && Next(s, l).overflowed != s.overflowed
    ensures Decided(s, Next(s, l), i) && Overflows(s, Next(s, l), i)
  {
    i := l.proc;
    StepSelect(s, l, i);
  }

  /** Nothing else makes an event overflow. */
  lemma OverflowOnlyWhenFull<E(!new)>(ss: seq<State<E>>, k: nat) returns (i: nat)
    requires IsRun(ss) && 0 < k < |ss| && ss[k].overflowed != ss[k - 1].overflowed
    ensures Decided(ss[k - 1], ss[k], i) && Overflows(ss[k - 1], ss[k], i)
  {
    BatchBound(ss, k - 1);
    var l := LabelAt(ss, k);
    i := StepOverflow(ss[k - 1], l);
  }

  // ---------------------------------------------------------------------------
  // Every call can come to its end
  // ---------------------------------------------------------------------------

  function Last<E>(ss: seq<State<E>>): State<E>
    requires |ss| > 0
  {
    ss[|ss| - 1]
  }

  lemma GoOn<E(!new)>(ss: seq<State<E>>, l: Label<E>) returns (ss': seq<State<E>>)
    requires IsRun(ss) && WellFormed(Last(ss)) && Enabled(Last(ss), l)
    ensures IsRun(ss') && ss < ss' && Last(ss') == Next(Last(ss), l) && Inv(Last(ss'))
  {
    ss' := ss + [Next(Last(ss), l)];
    forall k | 0 < k < |ss'|
      ensures StepAt(ss', k)
    {
      if k < |ss| {
        assert StepAt(ss, k);
      }
    }
    RunInv(ss', |ss|);
  }

  /** How many steps the call that has the batch makes at most until it puts it back. */
  function HolderSteps<E>(p: Proc<E>): nat {
    match p
    case SendSelect(_, _) => 2
    case FlushCheck(_) => 3
    case FlushCloseItems(_) => 2
    case _ => 1
  }

  /** Where a call that has the batch gets to by putting it back. */
  predicate Released<E>(p: Proc<E>, q: Proc<E>) {
    match p
    case SendSelect(_, _) => q.SendReturned?
    case SendRelease(_) => q.SendReturned?
    case FlushCheck(_) => q.FlushSelect? || q.FlushWait?
    case FlushPutBack(_) => q.FlushSelect?
    case FlushCloseItems(_) => q.FlushWait?
    case FlushPutNew(_, _) => q.FlushWait?
    case _ => false
  }

  lemma NoneHolds<E>(ps: seq<Proc<E>>, i: nat)
    requires i < |ps| && Holds(ps[i]) && HolderCount(ps) == 1
    ensures forall p: Proc<E> :: !Holds(p) ==> HolderCount(ps[i := p]) == 0
  {
    forall p: Proc<E> | !Holds(p)
      ensures HolderCount(ps[i := p]) == 0
    {
      HolderCountUpdate(ps, i, p);
    }
  }

  /** What one step of the holder does. */
  lemma HolderStep<E>(s: State<E>, i: nat)
    requires Inv(s) && i < |s.procs| && Holds(s.procs[i]) && ProcReady(s, i)
    ensures var s', p, q := Next(s, ProcStep(i)), s.procs[i], Next(s, ProcStep(i)).procs[i];
      && s'.procs == s.procs[i := q] && s'.worker == s.worker && s'.transportDone == s.transportDone
      && (if Holds(q) then HolderSteps(q) < HolderSteps(p) && (forall r :: Released(q, r) ==> Released(p, r))
          else Released(p, q) && HolderCount(s'.procs) == 0)
  {
    SoleHolder(s, i);
    NoneHolds(s.procs, i);
    assert !Next(s, ProcStep(i)).panicked by {
      StepKeepsInv(s, ProcStep(i));
    }
  }

  /** The call that has the batch puts it, or a new one, back. */
  lemma {:induction false} TokenReleased<E(!new)>(ss: seq<State<E>>, i: nat) returns (ss': seq<State<E>>)
    requires IsRun(ss) && i < |Last(ss).procs| && Holds(Last(ss).procs[i])
    ensures IsRun(ss') && ss < ss' && Inv(Last(ss'))
    ensures var s, s' := Last(ss), Last(ss');
      && HolderCount(s'.procs) == 0 && s'.worker == s.worker && s'.transportDone == s.transportDone
      && |s'.procs| == |s.procs| && s'.procs == s.procs[i := s'.procs[i]] && Released(s.procs[i], s'.procs[i])
    decreases HolderSteps(Last(ss).procs[i])
  {
    RunInv(ss, |ss| - 1);
    HolderReady(Last(ss), i);
    HolderStep(Last(ss), i);
    ss' := GoOn(ss, ProcStep(i));
    if Holds(Last(ss').procs[i]) {
      ss' := TokenReleased(ss', i);
    }
  }

  function NotDone<E>(bs: seq<Batch<E>>): nat {
    if bs == [] then 0 else (if bs[0].doneClosed then 0 else 1) + NotDone(bs[1..])
  }

  lemma {:induction false} NotDoneUpdate<E>(bs: seq<Batch<E>>, k: nat, b: Batch<E>)
    requires k < |bs|
    ensures NotDone(bs[k := b]) == NotDone(bs) - (if bs[k].doneClosed then 0 else 1) + if b.doneClosed then 0 else 1
  {
    if k == 0 {
      assert bs[k := b][1..] == bs[1..];
    } else {
      assert bs[k := b][1..] == bs[1..][k - 1 := b];
      NotDoneUpdate(bs[1..], k - 1, b);
    }
  }

  function WorkerSteps<E>(w: Worker<E>): nat {
    match w
    case Receive => 6
    case CloseStarted(_) => 5
    case GiveBack(_) => 4
    case Busy(_, _) => 3
    case Loop(_) => 2
    case CloseDone(_) => 1
    case Stopped => 0
  }

  /** The worker waits for events in the current batch; everything before it is done. */
  ghost predicate Settled<E>(s: State<E>) {
    && WellFormed(s) && s.worker == Loop(Current(s)) && s.buffer == [Current(s)]
    && !s.batches[Current(s)].itemsClosed && s.batches[Current(s)].items == []
  }

  /** Without a call in its way the worker can go on until it waits for events. */
  lemma WorkerCanGoOn<E>(s: State<E>)
    requires Inv(s) && HolderCount(s.procs) == 0 && !s.transportDone
    ensures WorkerReady(s) || Settled(s)
  {
    NoHolder(s);
  }

  lemma WorkerMeasure<E>(s: State<E>)
    requires Inv(s) && WorkerReady(s)
    ensures var s' := Next(s, WorkerStep);
      && s'.procs == s.procs && s'.transportDone == s.transportDone && |s'.batches| == |s.batches|
      && (NotDone(s'.batches) < NotDone(s.batches)
          || (NotDone(s'.batches) == NotDone(s.batches)
              && (|Queued(s'.batches)| < |Queued(s.batches)|
                  || (|Queued(s'.batches)| == |Queued(s.batches)| && WorkerSteps(s'.worker) < WorkerSteps(s.worker)))))
  {
    StepKeepsInv(s, WorkerStep);
    if !s.worker.Receive? && !s.worker.Stopped? {
      var b := s.worker.batch;
      NotDoneUpdate(s.batches, b, Next(s, WorkerStep).batches[b]);
      if Next(s, WorkerStep).batches[b].items == s.batches[b].items {
        QueuedSameItems(s.batches, b, Next(s, WorkerStep).batches[b]);
      } else {
        QueuedTake(s.batches, b, Next(s, WorkerStep).batches[b]);
      }
    }
  }

  /** The worker deals with all events there are and then waits. */
  lemma {:induction false} WorkerSettles<E(!new)>(ss: seq<State<E>>) returns (ss': seq<State<E>>)
    requires IsRun(ss) && Inv(Last(ss)) && HolderCount(Last(ss).procs) == 0 && !Last(ss).transportDone
    ensures IsRun(ss') && ss <= ss' && Inv(Last(ss')) && Settled(Last(ss'))
    ensures Last(ss').procs == Last(ss).procs && !Last(ss').transportDone
    decreases NotDone(Last(ss).batches), |Queued(Last(ss).batches)|, WorkerSteps(Last(ss).worker)
  {
    ss' := ss;
    WorkerCanGoOn(Last(ss));
    if WorkerReady(Last(ss)) {
      WorkerMeasure(Last(ss));
      ss' := GoOn(ss, WorkerStep);
      ss' := WorkerSettles(ss');
    }
  }

  /** From any reachable state the transport can come to rest, without any timeout: the batch is put
      back and all accepted events are dealt with. */
  lemma CanSettle<E(!new)>(ss: seq<State<E>>) returns (ss': seq<State<E>>)
    requires IsRun(ss) && !Last(ss).transportDone
    ensures IsRun(ss') && ss <= ss' && Inv(Last(ss')) && Settled(Last(ss')) && !Last(ss').transportDone
    ensures HolderCount(Last(ss').procs) == 0 && |Last(ss').procs| == |Last(ss).procs|
    ensures forall i :: 0 <= i < |Last(ss).procs| ==>
      Last(ss').procs[i] == Last(ss).procs[i] || (Holds(Last(ss).procs[i]) && Released(Last(ss).procs[i], Last(ss').procs[i]))
  {
    RunInv(ss, |ss| - 1);
    ss' := ss;
    if HolderCount(Last(ss).procs) > 0 {
      var i := SomeHolder(Last(ss).procs);
      ss' := TokenReleased(ss, i);
    }
    ss' := WorkerSettles(ss');
  }

  // ---------------------------------------------------------------------------
  // Flush and SendEvent
  // ---------------------------------------------------------------------------

  /** At rest a flush that waits is answered. */
  lemma WaitAnswered<E>(s: State<E>, f: nat)
    requires Inv(s) && Settled(s) && f < |s.procs| && s.procs[f].FlushWait?
    ensures ProcReady(s, f) && Next(s, ProcStep(f)).procs[f].FlushTrue?
  {
    assert MarkInv(s, s.procs[f]);
  }

  /** At rest a flush finds the batch started and takes it out of circulation. */
  lemma FlushTakesBatch<E(!new)>(ss: seq<State<E>>, f: nat) returns (ss': seq<State<E>>)
    requires IsRun(ss) && Inv(Last(ss)) && Settled(Last(ss)) && HolderCount(Last(ss).procs) == 0
    requires !Last(ss).transportDone && f < |Last(ss).procs| && Last(ss).procs[f].FlushSelect?
    ensures IsRun(ss') && ss <= ss' && Inv(Last(ss')) && !Last(ss').transportDone && HolderCount(Last(ss').procs) == 0
    ensures f < |Last(ss').procs| && Last(ss').procs[f].FlushWait?
  {
    var s := Last(ss);
    ss' := GoOn(ss, ProcStep(f));
    assert Last(ss').procs[f] == FlushCheck(Current(s)) && s.batches[Current(s)].startedClosed;
    ss' := GoOn(ss', ProcStep(f));
    assert Last(ss').procs[f] == FlushCloseItems(Current(s));
    ss' := TokenReleased(ss', f);
  }

  lemma WaitEnds<E(!new)>(ss: seq<State<E>>, f: nat) returns (ss': seq<State<E>>)
    requires IsRun(ss) && Inv(Last(ss)) && Settled(Last(ss)) && f < |Last(ss).procs| && Last(ss).procs[f].FlushWait?
    ensures IsRun(ss') && ss <= ss' && f < |Last(ss').procs| && Last(ss').procs[f].FlushTrue?
  {
    WaitAnswered(Last(ss), f);
    ss' := GoOn(ss, ProcStep(f));
  }

  /** The transport comes to rest, and call `i` has put the batch back if it had it. */
  lemma CanSettleWith<E(!new)>(ss: seq<State<E>>, i: nat) returns (ss': seq<State<E>>)
    requires IsRun(ss) && !Last(ss).transportDone && i < |Last(ss).procs|
    ensures IsRun(ss') && ss <= ss' && Inv(Last(ss')) && Settled(Last(ss')) && !Last(ss').transportDone
    ensures HolderCount(Last(ss').procs) == 0 && i < |Last(ss').procs|
    ensures Last(ss').procs[i] == Last(ss).procs[i] || Released(Last(ss).procs[i], Last(ss').procs[i])
    ensures !Holds(Last(ss').procs[i])
  {
    ss' := CanSettle(ss);
    if Holds(Last(ss').procs[i]) {
      NoOtherHolder(Last(ss').procs, i, i);
    }
  }

  /** Every flush that has not returned can return true while the transport is open, by steps of the calls
      and of the worker alone. */
  lemma FlushCanReturn<E(!new)>(ss: seq<State<E>>, f: nat) returns (ss': seq<State<E>>)
    requires IsRun(ss) && !Last(ss).transportDone && f < |Last(ss).procs|
    requires var p := Last(ss).procs[f];
      p.FlushSelect? || p.FlushCheck? || p.FlushPutBack? || p.FlushCloseItems? || p.FlushPutNew? || p.FlushWait?
    ensures IsRun(ss') && ss <= ss' && f < |Last(ss').procs| && Last(ss').procs[f].FlushTrue?
  {
    ss' := CanSettleWith(ss, f);
    assert Last(ss').procs[f].FlushSelect? || Last(ss').procs[f].FlushWait?;
    if Last(ss').procs[f].FlushSelect? {
      ss' := FlushTakesBatch(ss', f);
      ss' := WorkerSettles(ss');
    }
    ss' := WaitEnds(ss', f);
  }

  /** At rest a SendEvent gets its event accepted and returns. */
  lemma SendGoesThrough<E(!new)>(ss: seq<State<E>>, i: nat) returns (ss': seq<State<E>>)
    requires IsRun(ss) && Inv(Last(ss)) && Settled(Last(ss)) && WithinCapacity(Last(ss))
    requires i < |Last(ss).procs| && Last(ss).procs[i].SendAcquire?
    ensures IsRun(ss') && ss <= ss' && i < |Last(ss').procs| && Last(ss').procs[i].SendReturned?
    ensures Last(ss).capacity > 0 ==> Last(ss').accepted == Last(ss).accepted + [Last(ss).procs[i].event]
  {
    var s := Last(ss);
    ss' := GoOn(ss, ProcStep(i));
    var s1 := Last(ss');
    assert s1.procs[i] == SendSelect(s.procs[i].event, Current(s)) && s1.accepted == s.accepted;
    ss' := GoOn(ss', ProcStep(i));
    StepSelect(s1, ProcStep(i), i);
    HolderReady(Last(ss'), i);
    ss' := GoOn(ss', ProcStep(i));
  }

  /** And every SendEvent can return; from before its turn, with its event accepted. */
  lemma SendCanReturn<E(!new)>(ss: seq<State<E>>, i: nat) returns (ss': seq<State<E>>)
    requires IsRun(ss) && !Last(ss).transportDone && i < |Last(ss).procs|
    requires var p := Last(ss).procs[i]; p.SendAcquire? || p.SendSelect? || p.SendRelease?
    ensures IsRun(ss') && ss <= ss' && i < |Last(ss').procs| && Last(ss').procs[i].SendReturned?
    ensures Last(ss).procs[i].SendAcquire? && Last(ss).capacity > 0 ==>
      Last(ss').accepted != [] && Last(ss').accepted[|Last(ss').accepted| - 1] == Last(ss).procs[i].event
  {
    BatchBound(ss, |ss| - 1);
    ss' := CanSettleWith(ss, i);
    BatchBound(ss', |ss'| - 1);
    assert ss'[0] == ss[0];
    if Last(ss').procs[i].SendAcquire? {
      ss' := SendGoesThrough(ss', i);
    }
  }
}
