/** AsyncTransport (internal/http/transport.go): senders, flushers, Close and the worker as a
    labelled transition system, one label per lock or channel operation. */
module AsyncTransports {

  /** A call of SendEnvelope: before RLock, under it, and past the first test of `done`. */
  datatype Sender<T> = Started(item: T) | Locked(item: T) | Checked(item: T) | Finished(item: T)

  datatype Phase = Calling | Holding | Requested | Returned(ok: bool)

  /** A call of FlushWithContext.  `called` and `mark` are the numbers of envelopes queued so far
      when it was called and when the worker received its request; `answered` says whether
      its response channel is closed. */
  datatype Flush = Flush(phase: Phase, called: nat, mark: nat, answered: bool)

  datatype Closer = NotClosing | WantsLock | HasLock | WaitsForWorker | Closed

  datatype Worker<T> =
    | Select
    | Sending(item: T)
    | Draining(flush: nat)
    | DrainSending(flush: nat, item: T)
    | Exited

  datatype State<T> = State(
    queueSize: nat,
    queue: seq<T>,
    senders: seq<Sender<T>>,
    flushes: seq<Flush>,
    closer: Closer,
    done: bool,
    worker: Worker<T>,
    queued: seq<T>,
    processed: seq<T>)

  datatype Label<T> =
    | CallSend(item: T)
    | SendLock(sender: nat)
    | SendSeesDone(sender: nat)
    | SendSeesOpen(sender: nat)
    | SendGivesUp(sender: nat)
    | SendQueues(sender: nat)
    | CallFlush
    | FlushLock(flush: nat)
    | FlushGivesUp(flush: nat)
    | FlushRequest(flush: nat)
    | FlushAnswered(flush: nat)
    | CallClose
    | CloseLock
    | CloseDone
    | CloseReturns
    | WorkerTakes
    | WorkerSent
    | WorkerDrainTakes
    | WorkerAnswers
    | WorkerExits

  function Initial<T>(queueSize: nat): State<T> {
    State(queueSize, [], [], [], NotClosing, false, Select, [], [])
  }

  // ---------------------------------------------------------------------------
  // The lock
  // ---------------------------------------------------------------------------

  predicate SenderReads<T>(s: Sender<T>) {
    s.Locked? || s.Checked?
  }

  predicate FlushReads(f: Flush) {
    f.phase.Holding? || f.phase.Requested?
  }

  predicate HasReaders<T>(s: State<T>) {
    || (exists i :: 0 <= i < |s.senders| && SenderReads(s.senders[i]))
    || (exists f :: 0 <= f < |s.flushes| && FlushReads(s.flushes[f]))
  }

  predicate HasWriter<T>(s: State<T>) {
    s.closer.HasLock? || s.closer.WaitsForWorker?
  }

  // ---------------------------------------------------------------------------
  // Steps
  // ---------------------------------------------------------------------------

  predicate Enabled<T>(s: State<T>, l: Label<T>) {
    match l
    case CallSend(_) => true
    case SendLock(i) => i < |s.senders| && s.senders[i].Started? && !HasWriter(s)
    case SendSeesDone(i) => i < |s.senders| && SenderReads(s.senders[i]) && s.done
    case SendSeesOpen(i) => i < |s.senders| && s.senders[i].Locked? && !s.done
    case SendGivesUp(i) => i < |s.senders| && s.senders[i].Checked?
    case SendQueues(i) => i < |s.senders| && s.senders[i].Checked? && |s.queue| < s.queueSize
    case CallFlush => true
    case FlushLock(f) => f < |s.flushes| && s.flushes[f].phase.Calling? && !HasWriter(s)
    case FlushGivesUp(f) => f < |s.flushes| && FlushReads(s.flushes[f])
    case FlushRequest(f) => f < |s.flushes| && s.flushes[f].phase.Holding? && s.worker.Select?
    case FlushAnswered(f) => f < |s.flushes| && s.flushes[f].phase.Requested? && s.flushes[f].answered
    case CallClose => s.closer.NotClosing?
    case CloseLock => s.closer.WantsLock? && !HasReaders(s)
    case CloseDone => s.closer.HasLock?
    case CloseReturns => s.closer.WaitsForWorker? && s.worker.Exited?
    case WorkerTakes => s.worker.Select? && s.queue != []
    case WorkerSent => s.worker.Sending? || s.worker.DrainSending?
    case WorkerDrainTakes => s.worker.Draining? && s.queue != []
    case WorkerAnswers => s.worker.Draining? && s.queue == [] && s.worker.flush < |s.flushes|
    case WorkerExits => s.worker.Select? && s.done
  }

  function SetSender<T>(s: State<T>, i: nat, x: Sender<T>): State<T>
    requires i < |s.senders|
  {
    s.(senders := s.senders[i := x])
  }

  function SetFlush<T>(s: State<T>, f: nat, x: Flush): State<T>
    requires f < |s.flushes|
  {
    s.(flushes := s.flushes[f := x])
  }

  /** SendGivesUp covers an empty envelope, a rate limit and a full queue; FlushGivesUp covers
      a closed `done` and a timeout. */
  function Next<T>(s: State<T>, l: Label<T>): State<T>
    requires Enabled(s, l)
  {
    match l
    case CallSend(item) => s.(senders := s.senders + [Started(item)])
    case SendLock(i) => SetSender(s, i, Locked(s.senders[i].item))
    case SendSeesDone(i) => SetSender(s, i, Finished(s.senders[i].item))
    case SendSeesOpen(i) => SetSender(s, i, Checked(s.senders[i].item))
    case SendGivesUp(i) => SetSender(s, i, Finished(s.senders[i].item))
    case SendQueues(i) =>
      var item := s.senders[i].item;
      SetSender(s.(queue := s.queue + [item], queued := s.queued + [item]), i, Finished(item))
    case CallFlush => s.(flushes := s.flushes + [Flush(Calling, |s.queued|, 0, false)])
    case FlushLock(f) => SetFlush(s, f, s.flushes[f].(phase := Holding))
    case FlushGivesUp(f) => SetFlush(s, f, s.flushes[f].(phase := Returned(false)))
    case FlushRequest(f) =>
      SetFlush(s.(worker := Draining(f)), f, s.flushes[f].(phase := Requested, mark := |s.queued|))
    case FlushAnswered(f) => SetFlush(s, f, s.flushes[f].(phase := Returned(true)))
    case CallClose => s.(closer := WantsLock)
    case CloseLock => s.(closer := HasLock)
    case CloseDone => s.(closer := WaitsForWorker, done := true)
    case CloseReturns => s.(closer := Closed)
    case WorkerTakes => s.(queue := s.queue[1..], worker := Sending(s.queue[0]))
    case WorkerSent =>
      s.(processed := s.processed + [s.worker.item],
         worker := if s.worker.Sending? then Select else Draining(s.worker.flush))
    case WorkerDrainTakes => s.(queue := s.queue[1..], worker := DrainSending(s.worker.flush, s.queue[0]))
    case WorkerAnswers =>
      SetFlush(s.(worker := Select), s.worker.flush, s.flushes[s.worker.flush].(answered := true))
    case WorkerExits => s.(worker := Exited)
  }

  // ---------------------------------------------------------------------------
  // Invariants
  // ---------------------------------------------------------------------------

  function InWorker<T>(w: Worker<T>): seq<T> {
    if w.Sending? || w.DrainSending? then [w.item] else []
  }

  /** Everything queued is processed once and in order, or being sent, or still in the queue. */
  ghost predicate InOrder<T>(s: State<T>) {
    s.queued == s.processed + InWorker(s.worker) + s.queue
  }

  predicate IsDraining<T>(w: Worker<T>, f: nat) {
    (w.Draining? || w.DrainSending?) && w.flush == f
  }

  /** The requests: one is being drained, the answered ones have been. */
  ghost predicate FlushOk<T>(s: State<T>, f: nat)
    requires f < |s.flushes|
  {
    var x := s.flushes[f];
    && x.called <= |s.queued|
    && (x.phase.Calling? || x.phase.Holding? ==> !x.answered && !IsDraining(s.worker, f))
    && (IsDraining(s.worker, f) ==> !x.answered)
    && (x.phase == Returned(true) ==> x.answered)
    && (x.phase.Requested? ==> x.answered || IsDraining(s.worker, f))
    && (x.phase.Requested? || x.answered ==> x.called <= x.mark <= |s.queued|)
    && (IsDraining(s.worker, f) ==> x.called <= x.mark <= |s.queued|)
    && (x.answered ==> x.mark <= |s.processed|)
  }

  ghost predicate FlushesOk<T>(s: State<T>) {
    && (forall f :: 0 <= f < |s.flushes| ==> FlushOk(s, f))
    && (s.worker.Draining? || s.worker.DrainSending? ==> s.worker.flush < |s.flushes|)
  }

  /** While `done` is closed no sender is past its test, and a flusher under the lock sees a
      closed `done` only when the worker is gone. */
  ghost predicate LockOk<T>(s: State<T>) {
    && (HasWriter(s) ==> !HasReaders(s))
    && (s.done <==> s.closer.WaitsForWorker? || s.closer.Closed?)
    && (s.closer.Closed? ==> s.worker.Exited?)
    && (s.worker.Exited? ==> s.done)
    && (forall i :: 0 <= i < |s.senders| && s.senders[i].Checked? ==> !s.done)
  }

  ghost predicate Inv<T>(s: State<T>) {
    InOrder(s) && FlushesOk(s) && LockOk(s)
  }

  lemma StepInOrder<T>(s: State<T>, l: Label<T>)
    requires Inv(s) && Enabled(s, l)
    ensures InOrder(Next(s, l))
  {
  }

  lemma SenderFlushes<T>(s: State<T>, l: Label<T>)
    requires Inv(s) && Enabled(s, l)
    requires l.CallSend? || l.SendLock? || l.SendSeesDone? || l.SendSeesOpen? || l.SendGivesUp? || l.SendQueues?
      || l.CallClose? || l.CloseLock? || l.CloseDone? || l.CloseReturns?
    ensures FlushesOk(Next(s, l))
  {
    forall f | 0 <= f < |s.flushes|
      ensures FlushOk(Next(s, l), f)
    {
      assert FlushOk(s, f);
    }
  }

  lemma WorkerFlushes<T>(s: State<T>, l: Label<T>)
    requires Inv(s) && Enabled(s, l)
    requires l.WorkerTakes? || l.WorkerSent? || l.WorkerDrainTakes? || l.WorkerAnswers? || l.WorkerExits?
    ensures FlushesOk(Next(s, l))
  {
    forall f | 0 <= f < |s.flushes|
      ensures FlushOk(Next(s, l), f)
    {
      assert FlushOk(s, f);
    }
  }

  lemma FlusherFlushes<T>(s: State<T>, l: Label<T>)
    requires Inv(s) && Enabled(s, l)
    requires l.CallFlush? || l.FlushLock? || l.FlushGivesUp? || l.FlushRequest? || l.FlushAnswered?
    ensures FlushesOk(Next(s, l))
  {
    var s' := Next(s, l);
    forall f | 0 <= f < |s'.flushes|
      ensures FlushOk(s', f)
    {
      assert f < |s.flushes| ==> FlushOk(s, f);
    }
  }

  lemma SenderLock<T>(s: State<T>, l: Label<T>)
    requires LockOk(s) && Enabled(s, l)
    requires l.CallSend? || l.SendLock? || l.SendSeesDone? || l.SendSeesOpen? || l.SendGivesUp? || l.SendQueues?
    ensures LockOk(Next(s, l))
  {
    var s' := Next(s, l);
    if HasWriter(s) {
      assert forall i :: 0 <= i < |s.senders| ==> !SenderReads(s.senders[i]);
    }
  }

  lemma FlusherLock<T>(s: State<T>, l: Label<T>)
    requires LockOk(s) && Enabled(s, l)
    requires l.CallFlush? || l.FlushLock? || l.FlushGivesUp? || l.FlushRequest? || l.FlushAnswered?
    ensures LockOk(Next(s, l))
  {
    var s' := Next(s, l);
    if HasWriter(s) {
      assert forall f :: 0 <= f < |s.flushes| ==> !FlushReads(s.flushes[f]);
    }
  }

  lemma WorkerLock<T>(s: State<T>, l: Label<T>)
    requires LockOk(s) && Enabled(s, l)
    requires l.WorkerTakes? || l.WorkerSent? || l.WorkerDrainTakes? || l.WorkerAnswers? || l.WorkerExits?
    ensures LockOk(Next(s, l))
  {
    var s' := Next(s, l);
    if HasWriter(s) {
      assert forall f :: 0 <= f < |s.flushes| ==> !FlushReads(s.flushes[f]);
    }
  }

  lemma CloserLock<T>(s: State<T>, l: Label<T>)
    requires LockOk(s) && Enabled(s, l)
    requires l.CallClose? || l.CloseLock? || l.CloseDone? || l.CloseReturns?
    ensures LockOk(Next(s, l))
  {
    if l.CloseDone? {
      assert forall i :: 0 <= i < |s.senders| ==> !SenderReads(s.senders[i]);
    }
  }

  lemma StepKeepsInv<T>(s: State<T>, l: Label<T>)
    requires Inv(s) && Enabled(s, l)
    ensures Inv(Next(s, l))
  {
    StepInOrder(s, l);
    match l {
      case CallSend(_) => SenderFlushes(s, l); SenderLock(s, l);
      case SendLock(_) => SenderFlushes(s, l); SenderLock(s, l);
      case SendSeesDone(_) => SenderFlushes(s, l); SenderLock(s, l);
      case SendSeesOpen(_) => SenderFlushes(s, l); SenderLock(s, l);
      case SendGivesUp(_) => SenderFlushes(s, l); SenderLock(s, l);
      case SendQueues(_) => SenderFlushes(s, l); SenderLock(s, l);
      case CallFlush => FlusherFlushes(s, l); FlusherLock(s, l);
      case FlushLock(_) => FlusherFlushes(s, l); FlusherLock(s, l);
      case FlushGivesUp(_) => FlusherFlushes(s, l); FlusherLock(s, l);
      case FlushRequest(_) => FlusherFlushes(s, l); FlusherLock(s, l);
      case FlushAnswered(_) => FlusherFlushes(s, l); FlusherLock(s, l);
      case CallClose => SenderFlushes(s, l); CloserLock(s, l);
      case CloseLock => SenderFlushes(s, l); CloserLock(s, l);
      case CloseDone => SenderFlushes(s, l); CloserLock(s, l);
      case CloseReturns => SenderFlushes(s, l); CloserLock(s, l);
      case _ => WorkerFlushes(s, l); WorkerLock(s, l);
    }
  }

  // ---------------------------------------------------------------------------
  // Runs
  // ---------------------------------------------------------------------------

  ghost predicate StepAt<T>(ss: seq<State<T>>, ls: seq<Label<T>>, i: nat) {
    i < |ls| && i + 1 < |ss| && Enabled(ss[i], ls[i]) && ss[i + 1] == Next(ss[i], ls[i])
  }

  ghost predicate IsRun<T>(ss: seq<State<T>>, ls: seq<Label<T>>) {
    && |ss| == |ls| + 1
    && (exists queueSize: nat :: ss[0] == Initial(queueSize))
    && forall i :: 0 <= i < |ls| ==> StepAt(ss, ls, i)
  }

  lemma {:induction false} RunInv<T>(ss: seq<State<T>>, ls: seq<Label<T>>, i: nat)
    requires IsRun(ss, ls) && i < |ss|
    ensures Inv(ss[i])
  {
    if i > 0 {
      RunInv(ss, ls, i - 1);
      assert StepAt(ss, ls, i - 1);
      StepKeepsInv(ss[i - 1], ls[i - 1]);
    }
  }

  /** Envelopes are processed once each, in the order in which they were queued. */
  lemma ProcessedInOrder<T>(ss: seq<State<T>>, ls: seq<Label<T>>, i: nat)
    requires IsRun(ss, ls) && i < |ss|
    ensures ss[i].queued == ss[i].processed + InWorker(ss[i].worker) + ss[i].queue
  {
    RunInv(ss, ls, i);
  }

  /** What never changes about a flush, and what only grows. */
  ghost predicate Follows<T>(s: State<T>, s': State<T>) {
    && s.queued <= s'.queued && |s.flushes| <= |s'.flushes|
    && (s.done ==> s'.done)
    && (forall f :: 0 <= f < |s.flushes| ==> s'.flushes[f].called == s.flushes[f].called)
    && (forall f :: 0 <= f < |s.flushes| && (s.flushes[f].phase.Requested? || s.flushes[f].phase.Returned?) ==>
          s'.flushes[f].mark == s.flushes[f].mark && (s'.flushes[f].phase.Requested? || s'.flushes[f].phase.Returned?))
  }

  lemma StepFollows<T>(s: State<T>, l: Label<T>)
    requires Enabled(s, l)
    ensures Follows(s, Next(s, l))
  {
  }

  lemma FollowsTransitive<T>(a: State<T>, b: State<T>, c: State<T>)
    requires Follows(a, b) && Follows(b, c)
    ensures Follows(a, c)
  {
  }

  lemma RunStepFollows<T>(ss: seq<State<T>>, ls: seq<Label<T>>, i: nat)
    requires IsRun(ss, ls) && i < |ls|
    ensures Follows(ss[i], ss[i + 1])
  {
    assert StepAt(ss, ls, i);
    StepFollows(ss[i], ls[i]);
  }

  lemma {:induction false} RunFollows<T>(ss: seq<State<T>>, ls: seq<Label<T>>, i: nat, k: nat)
    requires IsRun(ss, ls) && i <= k < |ss|
    ensures Follows(ss[i], ss[k])
    decreases k
  {
    if i < k {
      RunFollows(ss, ls, i, k - 1);
      RunStepFollows(ss, ls, k - 1);
      FollowsTransitive(ss[i], ss[k - 1], ss[k]);
    }
  }

  /** A flush that returns true has seen everything processed that was queued before the worker
      received its request. */
  lemma RequestGuarantee<T>(ss: seq<State<T>>, ls: seq<Label<T>>, j: nat, k: nat, f: nat)
    requires IsRun(ss, ls) && j < k < |ss| && ls[j] == FlushRequest(f)
    requires f < |ss[k].flushes| && ss[k].flushes[f].phase == Returned(true)
    ensures ss[j].queued <= ss[k].processed
  {
    assert StepAt(ss, ls, j);
    assert ss[j + 1].flushes[f].mark == |ss[j].queued| && ss[j + 1].queued == ss[j].queued;
    RunFollows(ss, ls, j + 1, k);
    RunInv(ss, ls, k);
    assert FlushOk(ss[k], f);
  }

  /** In particular, everything that was queued before Flush was called. */
  lemma FlushGuarantee<T>(ss: seq<State<T>>, ls: seq<Label<T>>, c: nat, k: nat)
    requires IsRun(ss, ls) && c < k < |ss| && ls[c] == CallFlush
    requires |ss[c].flushes| < |ss[k].flushes| && ss[k].flushes[|ss[c].flushes|].phase == Returned(true)
    ensures ss[c].queued <= ss[k].processed
  {
    var f := |ss[c].flushes|;
    assert StepAt(ss, ls, c);
    assert ss[c + 1].flushes[f].called == |ss[c].queued| && ss[c + 1].queued == ss[c].queued;
    RunFollows(ss, ls, c + 1, k);
    RunInv(ss, ls, k);
    assert FlushOk(ss[k], f);
  }

  lemma StepDone<T>(s: State<T>, l: Label<T>)
    requires LockOk(s) && Enabled(s, l) && s.done
    ensures Next(s, l).done && Next(s, l).queued == s.queued
  {
  }

  /** After `done` is closed nothing is queued any more. */
  lemma {:induction false} NothingQueuedAfterDone<T>(ss: seq<State<T>>, ls: seq<Label<T>>, i: nat, k: nat)
    requires IsRun(ss, ls) && i <= k < |ss| && ss[i].done
    ensures ss[k].done && ss[k].queued == ss[i].queued
    decreases k
  {
    if i < k {
      NothingQueuedAfterDone(ss, ls, i, k - 1);
      RunInv(ss, ls, k - 1);
      assert StepAt(ss, ls, k - 1);
      StepDone(ss[k - 1], ls[k - 1]);
    }
  }

  predicate Hopeless<T>(s: State<T>, f: nat) {
    s.done && f < |s.flushes| && !s.flushes[f].phase.Requested? && s.flushes[f].phase != Returned(true)
  }

  lemma StepHopeless<T>(s: State<T>, l: Label<T>, f: nat)
    requires Inv(s) && Enabled(s, l) && Hopeless(s, f)
    ensures Hopeless(Next(s, l), f)
  {
    assert FlushReads(s.flushes[f]) ==> HasReaders(s);
  }

  /** A flush whose request the worker has not received when `done` is closed never returns true. */
  lemma {:induction false} NoFlushAfterClose<T>(ss: seq<State<T>>, ls: seq<Label<T>>, i: nat, k: nat, f: nat)
    requires IsRun(ss, ls) && i <= k < |ss| && Hopeless(ss[i], f)
    ensures Hopeless(ss[k], f)
    decreases k
  {
    if i < k {
      NoFlushAfterClose(ss, ls, i, k - 1, f);
      RunInv(ss, ls, k - 1);
      assert StepAt(ss, ls, k - 1);
      StepHopeless(ss[k - 1], ls[k - 1], f);
    }
  }

  lemma StepExited<T>(s: State<T>, l: Label<T>)
    requires LockOk(s) && Enabled(s, l) && s.worker.Exited?
    ensures var s' := Next(s, l); s'.worker.Exited? && s'.processed == s.processed && s'.queue == s.queue
  {
  }

  /** Once the worker has gone, nothing is processed any more: what is in the queue stays there. */
  lemma {:induction false} NothingAfterExit<T>(ss: seq<State<T>>, ls: seq<Label<T>>, i: nat, k: nat)
    requires IsRun(ss, ls) && i <= k < |ss| && ss[i].worker.Exited?
    ensures ss[k].worker.Exited? && ss[k].processed == ss[i].processed && ss[k].queue == ss[i].queue
    decreases k
  {
    if i < k {
      NothingAfterExit(ss, ls, i, k - 1);
      RunInv(ss, ls, k - 1);
      assert StepAt(ss, ls, k - 1);
      StepExited(ss[k - 1], ls[k - 1]);
    }
  }

  lemma OneQueued<T>(item: T) returns (ss: seq<State<T>>, ls: seq<Label<T>>)
    ensures IsRun(ss, ls)
    ensures ss[|ls|] == Initial(1).(senders := [Finished(item)], queue := [item], queued := [item])
  {
    ss, ls := [Initial(1)], [];
    ss, ls := Extend(ss, ls, CallSend(item));
    assert ss[|ls|].senders == [Started(item)];
    ss, ls := Extend(ss, ls, SendLock(0));
    ss, ls := Extend(ss, ls, SendSeesOpen(0));
    ss, ls := Extend(ss, ls, SendQueues(0));
  }

  /** A run that leaves an envelope so: the worker sees the closed `done` and not the queue. */
  lemma LeftInQueue<T>(item: T) returns (ss: seq<State<T>>, ls: seq<Label<T>>)
    ensures IsRun(ss, ls)
    ensures var s := ss[|ls|]; s.worker.Exited? && s.closer.Closed? && s.queue == [item] && s.processed == []
  {
    ss, ls := OneQueued(item);
    ss, ls := Extend(ss, ls, CallClose);
    ss, ls := Extend(ss, ls, CloseLock);
    ss, ls := Extend(ss, ls, Label.CloseDone);
    ss, ls := Extend(ss, ls, WorkerExits);
    ss, ls := Extend(ss, ls, CloseReturns);
  }

  lemma Extend<T>(ss: seq<State<T>>, ls: seq<Label<T>>, l: Label<T>) returns (ss': seq<State<T>>, ls': seq<Label<T>>)
    requires IsRun(ss, ls) && Enabled(ss[|ls|], l)
    ensures IsRun(ss', ls') && |ls'| == |ls| + 1 && ss'[|ls'|] == Next(ss[|ls|], l)
  {
    ss', ls' := ss + [Next(ss[|ls|], l)], ls + [l];
    forall i | 0 <= i < |ls'|
      ensures StepAt(ss', ls', i)
    {
      if i < |ls| {
        assert StepAt(ss, ls, i);
      }
    }
  }

  // ---------------------------------------------------------------------------
  // No deadlock
  // ---------------------------------------------------------------------------

  /** Someone has not returned, or the worker is at work. */
  ghost predicate Unfinished<T>(s: State<T>) {
    || (exists i :: 0 <= i < |s.senders| && !s.senders[i].Finished?)
    || (exists f :: 0 <= f < |s.flushes| && !s.flushes[f].phase.Returned?)
    || s.closer.WantsLock? || HasWriter(s)
    || s.worker.Sending? || s.worker.Draining? || s.worker.DrainSending?
  }

  /** A step of those who are there already, made without the help of a timeout.  While Close waits for
      the lock no one else gets it. */
  predicate GoesOn<T>(s: State<T>, l: Label<T>) {
    && Enabled(s, l) && !l.CallSend? && !l.CallFlush? && !l.CallClose?
    && (l.FlushGivesUp? ==> s.done)
    && (l.SendLock? || l.FlushLock? ==> !s.closer.WantsLock?)
  }

  lemma WorkerGoesOn<T>(s: State<T>) returns (l: Label<T>)
    requires Inv(s) && (s.worker.Sending? || s.worker.Draining? || s.worker.DrainSending?)
    ensures GoesOn(s, l)
  {
    if s.worker.Draining? {
      l := if s.queue != [] then WorkerDrainTakes else WorkerAnswers;
    } else {
      l := WorkerSent;
    }
  }

  lemma SenderGoesOn<T>(s: State<T>, i: nat) returns (l: Label<T>)
    requires Inv(s) && i < |s.senders| && SenderReads(s.senders[i])
    ensures GoesOn(s, l)
  {
    if s.senders[i].Locked? {
      l := if s.done then SendSeesDone(i) else SendSeesOpen(i);
    } else {
      l := if |s.queue| < s.queueSize then SendQueues(i) else SendGivesUp(i);
    }
  }

  lemma FlusherGoesOn<T>(s: State<T>, f: nat) returns (l: Label<T>)
    requires Inv(s) && f < |s.flushes| && FlushReads(s.flushes[f]) && (s.worker.Select? || s.worker.Exited?)
    ensures GoesOn(s, l)
  {
    assert FlushOk(s, f);
    if s.flushes[f].phase.Requested? {
      l := FlushAnswered(f);
    } else {
      l := if s.worker.Select? then FlushRequest(f) else FlushGivesUp(f);
    }
  }

  lemma CloserGoesOn<T>(s: State<T>) returns (l: Label<T>)
    requires Inv(s) && (s.worker.Select? || s.worker.Exited?) && !HasReaders(s) && (s.closer.WantsLock? || HasWriter(s))
    ensures GoesOn(s, l)
  {
    match s.closer {
      case WantsLock => l := CloseLock;
      case HasLock => l := Label.CloseDone;
      case WaitsForWorker => l := if s.worker.Exited? then CloseReturns else WorkerExits;
    }
  }

  lemma WaitingGoesOn<T>(s: State<T>) returns (l: Label<T>)
    requires Unfinished(s) && !HasReaders(s) && !HasWriter(s) && !s.closer.WantsLock?
    requires s.worker.Select? || s.worker.Exited?
    ensures GoesOn(s, l)
  {
    if i :| 0 <= i < |s.senders| && !s.senders[i].Finished? {
      assert !SenderReads(s.senders[i]);
      l := SendLock(i);
    } else {
      var f :| 0 <= f < |s.flushes| && !s.flushes[f].phase.Returned?;
      assert !FlushReads(s.flushes[f]);
      l := FlushLock(f);
    }
  }

  /** In every reachable state in which a call has not returned, Close included, someone can go on. */
  lemma NoDeadlock<T(!new)>(ss: seq<State<T>>, ls: seq<Label<T>>, i: nat)
    requires IsRun(ss, ls) && i < |ss| && Unfinished(ss[i])
    ensures exists l :: GoesOn(ss[i], l)
  {
    RunInv(ss, ls, i);
    var s := ss[i];
    var l: Label<T>;
    if !s.worker.Select? && !s.worker.Exited? {
      l := WorkerGoesOn(s);
    } else if j :| 0 <= j < |s.senders| && SenderReads(s.senders[j]) {
      l := SenderGoesOn(s, j);
    } else if f :| 0 <= f < |s.flushes| && FlushReads(s.flushes[f]) {
      l := FlusherGoesOn(s, f);
    } else if s.closer.WantsLock? || HasWriter(s) {
      l := CloserGoesOn(s);
    } else {
      l := WaitingGoesOn(s);
    }
    assert GoesOn(s, l);
  }
}
