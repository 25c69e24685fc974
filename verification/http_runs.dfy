/** What holds in every run of the batch protocol of HTTPTransport (transport.go). */
module HttpRuns {
  import opened HttpBatches

  ghost predicate Step<E(!new)>(s: State<E>, s': State<E>) {
    WellFormed(s) && exists l :: Enabled(s, l) && s' == Next(s, l)
  }

  ghost predicate StepAt<E(!new)>(ss: seq<State<E>>, k: nat) {
    0 < k < |ss| && Step(ss[k - 1], ss[k])
  }

  /** A run: any interleaving, of any length, from a freshly configured transport. */
  ghost predicate IsRun<E(!new)>(ss: seq<State<E>>) {
    && |ss| > 0
    && (exists capacity: nat :: ss[0] == Initial(capacity))
    && forall k :: 0 < k < |ss| ==> StepAt(ss, k)
  }

  lemma {:induction false} RunInv<E(!new)>(ss: seq<State<E>>, k: nat)
    requires IsRun(ss) && k < |ss|
    ensures Inv(ss[k])
  {
    if k == 0 {
      var capacity: nat :| ss[0] == Initial(capacity);
      InitialInv<E>(capacity);
    } else {
      RunInv(ss, k - 1);
      assert StepAt(ss, k);
      var l :| Enabled(ss[k - 1], l) && ss[k] == Next(ss[k - 1], l);
      StepKeepsInv(ss[k - 1], l);
    }
  }

  /** The program points whose next operation is a send on the token channel. */
  predicate PutsBack<E>(p: Proc<E>) {
    p.SendRelease? || p.FlushPutBack? || p.FlushPutNew?
  }

  /** No channel is closed twice or sent on after it was closed; there is exactly
      one batch token; its items are open whenever a sender has it; and putting a
      batch back into the channel never blocks. */
  lemma TokenSafety<E(!new)>(ss: seq<State<E>>, k: nat)
    requires IsRun(ss) && k < |ss|
    ensures !ss[k].panicked
    ensures Tokens(ss[k]) == 1
    ensures forall i :: 0 <= i < |ss[k].procs| && ss[k].procs[i].SendSelect? ==>
              ss[k].procs[i].batch < |ss[k].batches| && !ss[k].batches[ss[k].procs[i].batch].itemsClosed
    ensures forall i :: 0 <= i < |ss[k].procs| && PutsBack(ss[k].procs[i]) ==>
              WellFormed(ss[k]) && Enabled(ss[k], ProcStep(i))
    ensures ss[k].worker.GiveBack? ==> WellFormed(ss[k]) && Enabled(ss[k], WorkerStep)
  {
    RunInv(ss, k);
    var s := ss[k];
    forall i | 0 <= i < |s.procs| && Holds(s.procs[i])
      ensures s.buffer == []
    {
      SoleHolder(s, i);
    }
  }

  /** The worker takes exactly the accepted events, each once and in acceptance
      order, and starts a batch only after it has finished every earlier one. */
  lemma TakenInOrder<E(!new)>(ss: seq<State<E>>, k: nat)
    requires IsRun(ss) && k < |ss|
    ensures ss[k].taken <= ss[k].accepted
    ensures ss[k].accepted[|ss[k].taken|..] == Queued(ss[k].batches)
    ensures forall i, j :: 0 <= i < j < |ss[k].batches| && ss[k].batches[j].startedClosed ==>
              ss[k].batches[i].doneClosed && ss[k].batches[i].items == []
  {
    RunInv(ss, k);
  }

  /** What one step does to the accepted events and to the flushes' marks. */
  ghost predicate Grows<E>(s: State<E>, s': State<E>) {
    && s.accepted <= s'.accepted
    && |s.procs| <= |s'.procs|
    && (forall i :: 0 <= i < |s.procs| && Marked(s'.procs[i]) ==>
          s'.procs[i].mark == if Marked(s.procs[i]) then s.procs[i].mark else |s.accepted|)
    && (forall i :: |s.procs| <= i < |s'.procs| ==> !Marked(s'.procs[i]))
  }

  ghost predicate AllGrow<E>(ss: seq<State<E>>) {
    forall k :: 0 < k < |ss| ==> Grows(ss[k - 1], ss[k])
  }

  lemma StepProcGrows<E>(s: State<E>, i: nat)
    requires WellFormed(s) && ProcReady(s, i)
    ensures Grows(s, StepProc(s, i))
  {
    var p := s.procs[i];
    var q := StepProc(s, i).procs[i];
    assert Marked(q) ==> q.mark == if Marked(p) then p.mark else |s.accepted|;
  }

  lemma NextGrows<E>(s: State<E>, l: Label<E>)
    requires WellFormed(s) && Enabled(s, l)
    ensures Grows(s, Next(s, l))
  {
    match l {
      case ProcStep(i) => StepProcGrows(s, i);
      case _ =>
    }
  }

  lemma RunGrows<E(!new)>(ss: seq<State<E>>)
    requires IsRun(ss)
    ensures AllGrow(ss)
  {
    forall k | 0 < k < |ss|
      ensures Grows(ss[k - 1], ss[k])
    {
      assert StepAt(ss, k);
      var l :| Enabled(ss[k - 1], l) && ss[k] == Next(ss[k - 1], l);
      NextGrows(ss[k - 1], l);
    }
  }

  lemma {:induction false} AcceptedMonotone<E>(ss: seq<State<E>>, j: nat, k: nat)
    requires AllGrow(ss) && j <= k < |ss|
    ensures ss[j].accepted <= ss[k].accepted && |ss[j].procs| <= |ss[k].procs|
    decreases k
  {
    if j < k {
      AcceptedMonotone(ss, j, k - 1);
      assert Grows(ss[k - 1], ss[k]);
    }
  }

  /** A flush that had not closed its batch in state `j` marks at least what was accepted then. */
  lemma {:induction false} MarkCovers<E>(ss: seq<State<E>>, i: nat, j: nat, k: nat)
    requires AllGrow(ss) && j <= k < |ss| && i < |ss[k].procs| && Marked(ss[k].procs[i])
    requires i < |ss[j].procs| ==> !Marked(ss[j].procs[i])
    ensures ss[k].procs[i].mark >= |ss[j].accepted|
    decreases k
  {
    if j < k {
      assert Grows(ss[k - 1], ss[k]);
      AcceptedMonotone(ss, j, k - 1);
      if i < |ss[k - 1].procs| && Marked(ss[k - 1].procs[i]) {
        MarkCovers(ss, i, j, k - 1);
      }
    }
  }

  /** If call `i` is a Flush that returned true, then every event accepted before
      it closed its batch (in particular, before it was called: then `i` is no
      process yet) has been taken by the worker, in acceptance order, and dealt with:
      its request has ended, or it has been recorded as discarded. */
  lemma FlushGuarantee<E(!new)>(ss: seq<State<E>>, i: nat, j: nat, k: nat)
    requires IsRun(ss) && j <= k < |ss|
    requires i < |ss[k].procs| && ss[k].procs[i].FlushTrue?
    requires i < |ss[j].procs| ==> !Marked(ss[j].procs[i])
    ensures ss[j].accepted <= ss[k].finished <= ss[k].taken
  {
    RunGrows(ss);
    MarkCovers(ss, i, j, k);
    AcceptedMonotone(ss, j, k);
    RunInv(ss, k);
    assert MarkInv(ss[k], ss[k].procs[i]) && ProcInv(ss[k], ss[k].procs[i]);
  }

  // ---------------------------------------------------------------------------
  // No deadlock
  // ---------------------------------------------------------------------------

  predicate Unfinished<E>(p: Proc<E>) {
    !p.SendReturned? && !p.FlushTrue? && !p.FlushFalse?
  }

  /** Whoever has the token can go on. */
  lemma HolderReady<E>(s: State<E>, i: nat)
    requires Inv(s) && i < |s.procs| && Holds(s.procs[i])
    ensures ProcReady(s, i)
  {
    SoleHolder(s, i);
  }

  lemma {:induction false} SomeHolder<E>(ps: seq<Proc<E>>) returns (i: nat)
    requires HolderCount(ps) > 0
    ensures i < |ps| && Holds(ps[i])
  {
    if Holds(ps[0]) {
      i := 0;
    } else {
      i := SomeHolder(ps[1..]);
      i := i + 1;
    }
  }

  /** A worker that waits for events has the current batch, so that all earlier ones are done. */
  lemma WaitingWorker<E>(s: State<E>, i: nat)
    requires Inv(s) && !WorkerReady(s) && s.worker.Loop? && s.buffer != [] && i < |s.procs| && Unfinished(s.procs[i])
    ensures s.worker.batch == Current(s) && s.batches[Current(s)].startedClosed && ProcReady(s, i)
  {
    NoHolder(s);
    assert ProcInv(s, s.procs[i]) && MarkInv(s, s.procs[i]);
  }

  /** Until the transport is closed there is no deadlock, also without the timeouts: the worker can go
      on, or the call that has the token can, or the worker waits for events in a batch that it has
      started, and then every call that has not returned can go on. */
  lemma NoDeadlock<E(!new)>(ss: seq<State<E>>, k: nat)
    requires IsRun(ss) && k < |ss| && !ss[k].transportDone
    ensures var s := ss[k];
      && WellFormed(s)
      && (WorkerReady(s)
          || (exists i: nat :: i < |s.procs| && Holds(s.procs[i]) && ProcReady(s, i))
          || (s.worker == Loop(Current(s)) && s.batches[Current(s)].startedClosed
              && forall i: nat :: i < |s.procs| && Unfinished(s.procs[i]) ==> ProcReady(s, i)))
  {
    RunInv(ss, k);
    var s := ss[k];
    if HolderCount(s.procs) > 0 {
      var i := SomeHolder(s.procs);
      HolderReady(s, i);
    } else if !WorkerReady(s) {
      assert s.worker.Loop? && s.buffer != [];
      forall i: nat | i < |s.procs| && Unfinished(s.procs[i])
        ensures ProcReady(s, i)
      {
        WaitingWorker(s, i);
      }
    }
  }

  // ---------------------------------------------------------------------------
  // No event passed to SendEvent is lost on its way into a batch
  // ---------------------------------------------------------------------------

  /** Whether call `p` has event `x` in its hands, as a number. */
  function Carries<E(==)>(p: Proc<E>, x: E): nat {
    if (p.SendAcquire? || p.SendSelect?) && p.event == x then 1 else 0
  }

  /** How many calls have event `x` in their hands. */
  function InFlight<E(==)>(ps: seq<Proc<E>>, x: E): nat {
    if ps == [] then 0 else Carries(ps[0], x) + InFlight(ps[1..], x)
  }

  lemma {:induction false} InFlightUpdate<E>(ps: seq<Proc<E>>, x: E, i: nat, p: Proc<E>)
    requires i < |ps|
    ensures InFlight(ps[i := p], x) + Carries(ps[i], x) == InFlight(ps, x) + Carries(p, x)
  {
    if i == 0 {
      assert ps[i := p][1..] == ps[1..];
    } else {
      assert ps[i := p][1..] == ps[1..][i - 1 := p];
      InFlightUpdate(ps[1..], x, i - 1, p);
    }
  }

  lemma {:induction false} InFlightAppend<E>(ps: seq<Proc<E>>, x: E, p: Proc<E>)
    ensures InFlight(ps + [p], x) == InFlight(ps, x) + Carries(p, x)
  {
    if ps == [] {
      assert ps + [p] == [p];
    } else {
      assert (ps + [p])[1..] == ps[1..] + [p];
      InFlightAppend(ps[1..], x, p);
    }
  }

  ghost predicate SendLedger<E>(s: State<E>, x: E) {
    multiset(s.called)[x] == multiset(s.accepted)[x] + multiset(s.overflowed)[x] + InFlight(s.procs, x)
  }

  /** Only the select on the items channel decides about an event. */
  lemma ProcStepHistory<E>(s: State<E>, x: E, i: nat)
    requires WellFormed(s) && ProcReady(s, i) && !s.procs[i].SendSelect? && !StepProc(s, i).panicked && !s.panicked
    ensures var r := StepProc(s, i);
      && r.called == s.called && r.accepted == s.accepted && r.overflowed == s.overflowed
      && r.procs == s.procs[i := r.procs[i]] && Carries(r.procs[i], x) == Carries(s.procs[i], x)
  {
  }

  lemma SelectHistory<E>(s: State<E>, x: E, i: nat)
    requires WellFormed(s) && ProcReady(s, i) && s.procs[i].SendSelect? && !StepProc(s, i).panicked && !s.panicked
    ensures var r := StepProc(s, i);
      && r.called == s.called && r.procs == s.procs[i := r.procs[i]] && Carries(r.procs[i], x) == 0
      && multiset(r.accepted)[x] + multiset(r.overflowed)[x]
         == multiset(s.accepted)[x] + multiset(s.overflowed)[x] + Carries(s.procs[i], x)
  {
  }

  lemma SendLedgerProcStep<E>(s: State<E>, x: E, i: nat)
    requires WellFormed(s) && ProcReady(s, i) && SendLedger(s, x) && !StepProc(s, i).panicked && !s.panicked
    ensures SendLedger(StepProc(s, i), x)
  {
    var r := StepProc(s, i);
    if s.procs[i].SendSelect? {
      SelectHistory(s, x, i);
    } else {
      ProcStepHistory(s, x, i);
    }
    InFlightUpdate(s.procs, x, i, r.procs[i]);
  }

  lemma SendLedgerHandoff<E>(s: State<E>, x: E, i: nat)
    requires WellFormed(s) && Enabled(s, Handoff(i)) && SendLedger(s, x) && !Next(s, Handoff(i)).panicked
    ensures SendLedger(Next(s, Handoff(i)), x)
  {
    InFlightUpdate(s.procs, x, i, Next(s, Handoff(i)).procs[i]);
  }

  lemma SendLedgerStep<E>(s: State<E>, x: E, l: Label<E>)
    requires WellFormed(s) && Enabled(s, l) && SendLedger(s, x) && !Next(s, l).panicked
    ensures SendLedger(Next(s, l), x)
  {
    match l {
      case CallSend(e) => InFlightAppend(s.procs, x, SendAcquire(e));
      case CallFlush => InFlightAppend(s.procs, x, FlushSelect);
      case ProcStep(i) => SendLedgerProcStep(s, x, i);
      case Handoff(i) => SendLedgerHandoff(s, x, i);
      case Timeout(i) => InFlightUpdate(s.procs, x, i, FlushFalse);
      case _ =>
    }
  }

  /** In every run, each SendEvent call's event is accepted into a batch, counted
      as queue overflow, or still in the call's hands: none twice, none lost. */
  lemma {:induction false} NoEventLost<E(!new)>(ss: seq<State<E>>, x: E, k: nat)
    requires IsRun(ss) && k < |ss|
    ensures multiset(ss[k].called)[x] ==
            multiset(ss[k].accepted)[x] + multiset(ss[k].overflowed)[x] + InFlight(ss[k].procs, x)
  {
    if k > 0 {
      NoEventLost(ss, x, k - 1);
      RunInv(ss, k);
      assert StepAt(ss, k);
      var l :| Enabled(ss[k - 1], l) && ss[k] == Next(ss[k - 1], l);
      SendLedgerStep(ss[k - 1], x, l);
    }
  }
}
