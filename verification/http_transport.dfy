/** The batch and flush protocol of HTTPTransport (transport.go), as a labelled
    transition system with one label per channel operation.

    `buffer` is the capacity-1 channel that works as a mutex: it holds the id of
    the current batch.  Any number of SendEvent and Flush calls, the one worker
    and Close run interleaved.  Closing a closed channel, or sending on one, sets
    `panicked`, as the Go runtime would. */
module HttpBatches {

  datatype Batch<E> = Batch(items: seq<E>, itemsClosed: bool, startedClosed: bool, doneClosed: bool)

  /** Program points of one SendEvent or Flush call.  `mark` remembers how many
      events had been accepted when the flush closed its batch. */
  datatype Proc<E> =
    | SendAcquire(event: E)
    | SendSelect(event: E, batch: nat)
    | SendRelease(batch: nat)
    | SendReturned
    | FlushSelect
    | FlushCheck(batch: nat)
    | FlushPutBack(batch: nat)
    | FlushCloseItems(batch: nat)
    | FlushPutNew(batch: nat, mark: nat)
    | FlushWait(batch: nat, mark: nat)
    | FlushTrue(batch: nat, mark: nat)
    | FlushFalse

  /** While it is Busy the worker makes a request for `event`, or records why not. */
  datatype Worker<E> =
    | Receive
    | CloseStarted(batch: nat)
    | GiveBack(batch: nat)
    | Loop(batch: nat)
    | Busy(batch: nat, event: E)
    | CloseDone(batch: nat)
    | Stopped

  datatype State<E> = State(
    capacity: nat,
    batches: seq<Batch<E>>,
    buffer: seq<nat>,
    procs: seq<Proc<E>>,
    worker: Worker<E>,
    transportDone: bool,
    panicked: bool,
    called: seq<E>,
    accepted: seq<E>,
    taken: seq<E>,
    finished: seq<E>,
    overflowed: seq<E>)

  datatype Label<E> =
    | CallSend(event: E)
    | CallFlush
    | CallClose
    | ProcStep(proc: nat)
    | Handoff(proc: nat)
    | Timeout(proc: nat)
    | WorkerStep
    | WorkerStop

  function FreshBatch<E>(): Batch<E> {
    Batch([], false, false, false)
  }

  function Initial<E>(capacity: nat): State<E> {
    State(capacity, [FreshBatch()], [0], [], Receive, false, false, [], [], [], [], [])
  }

  /** The batch a call works on, if it has one. */
  predicate ProcInRange<E>(p: Proc<E>, n: nat) {
    match p
    case SendSelect(_, b) => b < n
    case SendRelease(b) => b < n
    case FlushCheck(b) => b < n
    case FlushPutBack(b) => b < n
    case FlushCloseItems(b) => b < n
    case FlushPutNew(b, _) => b < n
    case FlushWait(b, _) => b < n
    case FlushTrue(b, _) => b < n
    case _ => true
  }

  predicate WorkerInRange<E>(w: Worker<E>, n: nat) {
    w.Receive? || w.Stopped? || w.batch < n
  }

  ghost predicate WellFormed<E>(s: State<E>) {
    && |s.batches| > 0
    && (forall k :: 0 <= k < |s.buffer| ==> s.buffer[k] < |s.batches|)
    && (forall i :: 0 <= i < |s.procs| ==> ProcInRange(s.procs[i], |s.batches|))
    && WorkerInRange(s.worker, |s.batches|)
  }

  /** Whether the next channel operation of call `i` would not block. */
  ghost predicate ProcReady<E>(s: State<E>, i: nat)
    requires WellFormed(s)
  {
    i < |s.procs| &&
    match s.procs[i]
    case SendAcquire(_) => s.buffer != []
    case FlushSelect => s.buffer != []
    case SendRelease(_) => s.buffer == []
    case FlushPutBack(_) => s.buffer == []
    case FlushPutNew(_, _) => s.buffer == []
    case FlushWait(b, _) => s.batches[b].doneClosed
    case SendSelect(_, _) => true
    case FlushCheck(_) => true
    case FlushCloseItems(_) => true
    case _ => false
  }

  ghost predicate WorkerReady<E>(s: State<E>)
    requires WellFormed(s)
  {
    match s.worker
    case Receive => s.buffer != []
    case CloseStarted(_) => true
    case GiveBack(_) => s.buffer == []
    case Loop(b) => s.batches[b].items != [] || s.batches[b].itemsClosed
    case Busy(_, _) => true
    case CloseDone(_) => true
    case Stopped => false
  }

  ghost predicate Enabled<E>(s: State<E>, l: Label<E>)
    requires WellFormed(s)
  {
    !s.panicked &&
    match l
    case CallSend(_) => true
    case CallFlush => true
    case CallClose => true
    case ProcStep(i) => ProcReady(s, i)
    // An unbuffered or drained items channel hands an event straight to the waiting worker.
    case Handoff(i) =>
      && i < |s.procs| && s.procs[i].SendSelect?
      && s.worker == Loop(s.procs[i].batch) && s.batches[s.procs[i].batch].items == []
    case Timeout(i) => i < |s.procs| && (s.procs[i].FlushSelect? || s.procs[i].FlushWait?)
    case WorkerStep => WorkerReady(s)
    case WorkerStop => s.worker.Loop? && s.transportDone
  }

  ghost function StepProc<E>(s: State<E>, i: nat): (r: State<E>)
    requires WellFormed(s) && ProcReady(s, i)
    ensures WellFormed(r)
  {
    var (bs, ps) := (s.batches, s.procs);
    match ps[i]
    case SendAcquire(e) => s.(buffer := s.buffer[1..], procs := ps[i := SendSelect(e, s.buffer[0])])
    case SendSelect(e, b) =>
      if bs[b].itemsClosed then s.(panicked := true)
      else if |bs[b].items| < s.capacity then
        s.(batches := bs[b := bs[b].(items := bs[b].items + [e])], accepted := s.accepted + [e],
           procs := ps[i := SendRelease(b)])
      else s.(overflowed := s.overflowed + [e], procs := ps[i := SendRelease(b)])
    case SendRelease(b) => s.(buffer := s.buffer + [b], procs := ps[i := SendReturned])
    case FlushSelect => s.(buffer := s.buffer[1..], procs := ps[i := FlushCheck(s.buffer[0])])
    case FlushCheck(b) =>
      s.(procs := ps[i := if bs[b].startedClosed then FlushCloseItems(b) else FlushPutBack(b)])
    case FlushPutBack(b) => s.(buffer := s.buffer + [b], procs := ps[i := FlushSelect])
    case FlushCloseItems(b) =>
      if bs[b].itemsClosed then s.(panicked := true)
      else s.(batches := bs[b := bs[b].(itemsClosed := true)], procs := ps[i := FlushPutNew(b, |s.accepted|)])
    case FlushPutNew(b, mark) =>
      s.(batches := bs + [FreshBatch()], buffer := s.buffer + [|bs|], procs := ps[i := FlushWait(b, mark)])
    case FlushWait(b, mark) => s.(procs := ps[i := FlushTrue(b, mark)])
    case _ => s
  }

  ghost function StepWorker<E>(s: State<E>): (r: State<E>)
    requires WellFormed(s) && WorkerReady(s)
    ensures WellFormed(r)
  {
    var bs := s.batches;
    match s.worker
    case Receive => s.(buffer := s.buffer[1..], worker := CloseStarted(s.buffer[0]))
    case CloseStarted(b) =>
      if bs[b].startedClosed then s.(panicked := true)
      else s.(batches := bs[b := bs[b].(startedClosed := true)], worker := GiveBack(b))
    case GiveBack(b) => s.(buffer := s.buffer + [b], worker := Loop(b))
    case Loop(b) =>
      if bs[b].items != [] then
        s.(batches := bs[b := bs[b].(items := bs[b].items[1..])], taken := s.taken + [bs[b].items[0]],
           worker := Busy(b, bs[b].items[0]))
      else s.(worker := CloseDone(b))
    case Busy(b, e) => s.(worker := Loop(b), finished := s.finished + [e])
    case CloseDone(b) =>
      if bs[b].doneClosed then s.(panicked := true)
      else s.(batches := bs[b := bs[b].(doneClosed := true)], worker := Receive)
    case Stopped => s
  }

  ghost function Next<E>(s: State<E>, l: Label<E>): (r: State<E>)
    requires WellFormed(s) && Enabled(s, l)
    ensures WellFormed(r)
  {
    match l
    case CallSend(e) => s.(called := s.called + [e], procs := s.procs + [SendAcquire(e)])
    case CallFlush => s.(procs := s.procs + [FlushSelect])
    case CallClose => s.(transportDone := true)
    case ProcStep(i) => StepProc(s, i)
    case Handoff(i) =>
      var b := s.procs[i].batch;
      if s.batches[b].itemsClosed then s.(panicked := true)
      else
        s.(accepted := s.accepted + [s.procs[i].event], taken := s.taken + [s.procs[i].event],
           procs := s.procs[i := SendRelease(b)], worker := Busy(b, s.procs[i].event))
    case Timeout(i) => s.(procs := s.procs[i := FlushFalse])
    case WorkerStep => StepWorker(s)
    case WorkerStop => s.(worker := Stopped)
  }

  // ---------------------------------------------------------------------------
  // The token: who has the current batch
  // ---------------------------------------------------------------------------

  predicate Holds<E>(p: Proc<E>) {
    p.SendSelect? || p.SendRelease? || p.FlushCheck? || p.FlushPutBack? || p.FlushCloseItems? || p.FlushPutNew?
  }

  predicate WorkerHolds<E>(w: Worker<E>) {
    w.CloseStarted? || w.GiveBack?
  }

  function HolderCount<E>(ps: seq<Proc<E>>): nat {
    if ps == [] then 0 else HolderCount(ps[1..]) + if Holds(ps[0]) then 1 else 0
  }

  /** Copies of the batch token, wherever they are. */
  function Tokens<E>(s: State<E>): nat {
    |s.buffer| + HolderCount(s.procs) + if WorkerHolds(s.worker) then 1 else 0
  }

  lemma {:induction false} HolderCountUpdate<E>(ps: seq<Proc<E>>, i: nat, p: Proc<E>)
    requires i < |ps|
    ensures HolderCount(ps[i := p]) == HolderCount(ps)
      - (if Holds(ps[i]) then 1 else 0) + (if Holds(p) then 1 else 0)
  {
    if i == 0 {
      assert ps[i := p][1..] == ps[1..];
    } else {
      assert ps[i := p][1..] == ps[1..][i - 1 := p];
      HolderCountUpdate(ps[1..], i - 1, p);
    }
  }

  lemma {:induction false} HolderCountAppend<E>(ps: seq<Proc<E>>, p: Proc<E>)
    ensures HolderCount(ps + [p]) == HolderCount(ps) + (if Holds(p) then 1 else 0)
  {
    if ps == [] {
      assert ps + [p] == [p];
    } else {
      assert (ps + [p])[1..] == ps[1..] + [p];
      HolderCountAppend(ps[1..], p);
    }
  }

  /** With no holder counted nobody holds; with one counted, nobody but `i` does. */
  lemma {:induction false} NoOtherHolder<E>(ps: seq<Proc<E>>, i: nat, j: nat)
    requires j < |ps| && Holds(ps[j])
    ensures HolderCount(ps) >= 1
    ensures i < |ps| && Holds(ps[i]) && i != j ==> HolderCount(ps) >= 2
  {
    HolderCountUpdate(ps, j, SendReturned);
    if i < |ps| && Holds(ps[i]) && i != j {
      HolderCountUpdate(ps[j := SendReturned], i, SendReturned);
    }
  }

  // ---------------------------------------------------------------------------
  // The inductive invariant
  // ---------------------------------------------------------------------------

  function Current<E>(s: State<E>): int {
    |s.batches| - 1
  }

  ghost predicate TokenInv<E>(s: State<E>) {
    && Tokens(s) == 1
    && (forall k :: 0 <= k < |s.buffer| ==> s.buffer[k] == Current(s))
    && (forall i :: 0 <= i < |s.procs| && Holds(s.procs[i]) ==> s.procs[i].batch == Current(s))
    && (WorkerHolds(s.worker) ==> s.worker.batch == Current(s))
  }

  /** Life of a batch: started before closed before done, one batch after the other. */
  ghost predicate ChainInv<E>(s: State<E>)
    requires WellFormed(s)
  {
    var bs := s.batches;
    && (forall k :: 0 <= k < Current(s) ==> bs[k].startedClosed && bs[k].itemsClosed)
    && (forall k :: 0 <= k < |bs| && bs[k].doneClosed ==>
          bs[k].startedClosed && bs[k].itemsClosed && bs[k].items == [])
    && (forall j, k :: 0 <= j < k < |bs| && bs[k].startedClosed ==> bs[j].doneClosed)
    && (s.buffer != [] || WorkerHolds(s.worker) ==> !bs[Current(s)].itemsClosed)
  }

  ghost predicate ProcInv<E>(s: State<E>, p: Proc<E>)
    requires WellFormed(s) && ProcInRange(p, |s.batches|)
  {
    && (p.FlushCloseItems? ==> s.batches[p.batch].startedClosed && !s.batches[p.batch].itemsClosed)
    && ((p.SendSelect? || p.SendRelease? || p.FlushCheck? || p.FlushPutBack?) ==> !s.batches[p.batch].itemsClosed)
    && (p.FlushPutNew? ==> s.batches[p.batch].itemsClosed && s.batches[p.batch].startedClosed)
    && (p.FlushTrue? ==> s.batches[p.batch].doneClosed)
  }

  ghost predicate WorkerInv<E>(s: State<E>)
    requires WellFormed(s)
  {
    var bs := s.batches;
    match s.worker
    case Receive => forall k :: 0 <= k < |bs| && bs[k].startedClosed ==> bs[k].doneClosed
    case CloseStarted(b) =>
      !bs[b].startedClosed && forall k :: 0 <= k < |bs| && bs[k].startedClosed ==> bs[k].doneClosed
    case GiveBack(b) => bs[b].startedClosed && !bs[b].doneClosed && !bs[b].itemsClosed
    case Loop(b) => bs[b].startedClosed && !bs[b].doneClosed
    case Busy(b, _) => bs[b].startedClosed && !bs[b].doneClosed
    case CloseDone(b) => bs[b].startedClosed && !bs[b].doneClosed && bs[b].itemsClosed && bs[b].items == []
    case Stopped => s.transportDone
  }

  /** Events still queued, oldest batch first. */
  function Queued<E>(bs: seq<Batch<E>>): seq<E> {
    if bs == [] then [] else bs[0].items + Queued(bs[1..])
  }

  ghost predicate LedgerInv<E>(s: State<E>) {
    && s.accepted == s.taken + Queued(s.batches)
    && s.taken == s.finished + if s.worker.Busy? then [s.worker.event] else []
  }

  predicate Marked<E>(p: Proc<E>) {
    p.FlushPutNew? || p.FlushWait? || p.FlushTrue?
  }

  ghost predicate MarkInv<E>(s: State<E>, p: Proc<E>)
    requires WellFormed(s) && ProcInRange(p, |s.batches|)
  {
    Marked(p) ==>
      && s.batches[p.batch].itemsClosed
      && p.mark <= |s.accepted|
      && (if s.batches[p.batch].doneClosed then p.mark <= |s.finished|
          else p.mark == |s.taken| + |Queued(s.batches[..p.batch + 1])|)
  }

  ghost predicate Inv<E>(s: State<E>) {
    && WellFormed(s)
    && !s.panicked
    && TokenInv(s)
    && ChainInv(s)
    && (forall i :: 0 <= i < |s.procs| ==> ProcInv(s, s.procs[i]))
    && WorkerInv(s)
    && LedgerInv(s)
    && (forall i :: 0 <= i < |s.procs| ==> MarkInv(s, s.procs[i]))
  }

  lemma {:induction false} QueuedAppend<E>(bs: seq<Batch<E>>, b: Batch<E>)
    ensures Queued(bs + [b]) == Queued(bs) + b.items
  {
    if bs == [] {
      assert bs + [b] == [b];
    } else {
      assert (bs + [b])[1..] == bs[1..] + [b];
      QueuedAppend(bs[1..], b);
    }
  }

  /** Replacing a batch by one with the same items changes no queue. */
  lemma {:induction false} QueuedSameItems<E>(bs: seq<Batch<E>>, k: nat, b: Batch<E>)
    requires k < |bs| && b.items == bs[k].items
    ensures Queued(bs[k := b]) == Queued(bs)
  {
    if k == 0 {
      assert bs[k := b][1..] == bs[1..];
    } else {
      assert bs[k := b][1..] == bs[1..][k - 1 := b];
      QueuedSameItems(bs[1..], k - 1, b);
    }
  }

  lemma {:induction false} QueuedAllEmpty<E>(bs: seq<Batch<E>>)
    requires forall k :: 0 <= k < |bs| ==> bs[k].items == []
    ensures Queued(bs) == []
  {
    if bs != [] {
      QueuedAllEmpty(bs[1..]);
    }
  }

  /** Taking from the first non-empty batch takes from the front of the queue. */
  lemma {:induction false} QueuedTake<E>(bs: seq<Batch<E>>, k: nat, b: Batch<E>)
    requires k < |bs| && bs[k].items != [] && b.items == bs[k].items[1..]
    requires forall j :: 0 <= j < k ==> bs[j].items == []
    ensures Queued(bs) == [bs[k].items[0]] + Queued(bs[k := b])
  {
    if k == 0 {
      assert bs[k := b][1..] == bs[1..];
    } else {
      assert bs[k := b][1..] == bs[1..][k - 1 := b];
      QueuedTake(bs[1..], k - 1, b);
    }
  }

  // ---------------------------------------------------------------------------
  // Every step keeps the invariant
  // ---------------------------------------------------------------------------

  lemma InitialInv<E>(capacity: nat)
    ensures Inv(Initial<E>(capacity))
  {
  }

  /** A call that holds the token is alone with it. */
  lemma SoleHolder<E>(s: State<E>, i: nat)
    requires TokenInv(s) && i < |s.procs| && Holds(s.procs[i])
    ensures s.buffer == [] && !WorkerHolds(s.worker) && HolderCount(s.procs) == 1
    ensures forall j :: 0 <= j < |s.procs| && j != i ==> !Holds(s.procs[j])
  {
    NoOtherHolder(s.procs, i, i);
    forall j | 0 <= j < |s.procs| && j != i
      ensures !Holds(s.procs[j])
    {
      if Holds(s.procs[j]) {
        NoOtherHolder(s.procs, i, j);
      }
    }
  }

  /** While the token is in the channel, or with the worker, no call holds it. */
  lemma NoHolder<E>(s: State<E>)
    requires TokenInv(s) && (s.buffer != [] || WorkerHolds(s.worker))
    ensures |s.buffer| + (if WorkerHolds(s.worker) then 1 else 0) == 1 && HolderCount(s.procs) == 0
    ensures forall j :: 0 <= j < |s.procs| ==> !Holds(s.procs[j])
  {
    forall j | 0 <= j < |s.procs|
      ensures !Holds(s.procs[j])
    {
      if Holds(s.procs[j]) {
        NoOtherHolder(s.procs, j, j);
      }
    }
  }

  lemma CallStep<E>(s: State<E>, l: Label<E>)
    requires Inv(s) && Enabled(s, l) && (l.CallSend? || l.CallFlush? || l.CallClose?)
    ensures Inv(Next(s, l))
  {
    if !l.CallClose? {
      HolderCountAppend(s.procs, if l.CallSend? then SendAcquire(l.event) else FlushSelect);
    }
    var r := Next(s, l);
    forall j | 0 <= j < |r.procs|
      ensures ProcInRange(r.procs[j], |r.batches|) && ProcInv(r, r.procs[j]) && MarkInv(r, r.procs[j])
    {
      assert j < |s.procs| ==> MarkInv(s, s.procs[j]) && ProcInv(s, s.procs[j]);
    }
  }

  lemma AcquireStep<E>(s: State<E>, i: nat)
    requires Inv(s) && Enabled(s, ProcStep(i)) && (s.procs[i].SendAcquire? || s.procs[i].FlushSelect?)
    ensures Inv(Next(s, ProcStep(i)))
  {
    NoHolder(s);
    HolderCountUpdate(s.procs, i, Next(s, ProcStep(i)).procs[i]);
  }

  lemma ReleaseStep<E>(s: State<E>, i: nat)
    requires Inv(s) && Enabled(s, ProcStep(i)) && (s.procs[i].SendRelease? || s.procs[i].FlushPutBack?)
    ensures Inv(Next(s, ProcStep(i)))
  {
    SoleHolder(s, i);
    HolderCountUpdate(s.procs, i, Next(s, ProcStep(i)).procs[i]);
  }

  lemma CheckStep<E>(s: State<E>, i: nat)
    requires Inv(s) && Enabled(s, ProcStep(i)) && s.procs[i].FlushCheck?
    ensures Inv(Next(s, ProcStep(i)))
  {
    HolderCountUpdate(s.procs, i, Next(s, ProcStep(i)).procs[i]);
  }

  lemma EndFlushToken<E>(s: State<E>, l: Label<E>)
    requires Inv(s) && Enabled(s, l)
    requires l.Timeout? || (l.ProcStep? && s.procs[l.proc].FlushWait?)
    ensures TokenInv(Next(s, l)) && !Next(s, l).panicked
    ensures Next(s, l) == s.(procs := s.procs[l.proc := Next(s, l).procs[l.proc]])
  {
    HolderCountUpdate(s.procs, l.proc, Next(s, l).procs[l.proc]);
  }

  lemma EndFlushStep<E>(s: State<E>, l: Label<E>)
    requires Inv(s) && Enabled(s, l)
    requires l.Timeout? || (l.ProcStep? && s.procs[l.proc].FlushWait?)
    ensures Inv(Next(s, l))
  {
    EndFlushToken(s, l);
    var r := Next(s, l);
    forall j | 0 <= j < |r.procs|
      ensures ProcInRange(r.procs[j], |r.batches|) && ProcInv(r, r.procs[j]) && MarkInv(r, r.procs[j])
    {
      assert MarkInv(s, s.procs[j]) && ProcInv(s, s.procs[j]);
    }
  }

  /** Accepting into the current batch puts the event at the very end of the queue. */
  lemma QueuedAccept<E>(bs: seq<Batch<E>>, e: E)
    requires bs != []
    ensures var k := |bs| - 1; Queued(bs[k := bs[k].(items := bs[k].items + [e])]) == Queued(bs) + [e]
  {
    var k := |bs| - 1;
    var b := bs[k].(items := bs[k].items + [e]);
    QueuedAppend(bs[..k], bs[k]);
    QueuedAppend(bs[..k], b);
    assert bs[..k] + [bs[k]] == bs && bs[..k] + [b] == bs[k := b];
  }

  lemma AcceptToken<E>(s: State<E>, i: nat)
    requires Inv(s) && Enabled(s, ProcStep(i)) && s.procs[i].SendSelect?
    requires |s.batches[s.procs[i].batch].items| < s.capacity
    ensures TokenInv(Next(s, ProcStep(i))) && ChainInv(Next(s, ProcStep(i))) && LedgerInv(Next(s, ProcStep(i)))
    ensures s.procs[i].batch == Current(s)
  {
    SoleHolder(s, i);
    HolderCountUpdate(s.procs, i, Next(s, ProcStep(i)).procs[i]);
    QueuedAccept(s.batches, s.procs[i].event);
  }

  lemma AcceptStep<E>(s: State<E>, i: nat)
    requires Inv(s) && Enabled(s, ProcStep(i)) && s.procs[i].SendSelect?
    requires |s.batches[s.procs[i].batch].items| < s.capacity
    ensures Inv(Next(s, ProcStep(i)))
  {
    var r := Next(s, ProcStep(i));
    AcceptToken(s, i);
    forall j | 0 <= j < |r.procs|
      ensures MarkInv(r, r.procs[j])
    {
      if Marked(r.procs[j]) {
        assert r.batches[..r.procs[j].batch + 1] == s.batches[..r.procs[j].batch + 1];
      }
    }
  }

  lemma OverflowStep<E>(s: State<E>, i: nat)
    requires Inv(s) && Enabled(s, ProcStep(i)) && s.procs[i].SendSelect?
    requires |s.batches[s.procs[i].batch].items| >= s.capacity
    ensures Inv(Next(s, ProcStep(i)))
  {
    HolderCountUpdate(s.procs, i, Next(s, ProcStep(i)).procs[i]);
  }

  lemma CloseItemsMark<E>(s: State<E>, i: nat, j: nat)
    requires Inv(s) && Enabled(s, ProcStep(i)) && s.procs[i].FlushCloseItems? && j < |s.procs|
    ensures MarkInv(Next(s, ProcStep(i)), Next(s, ProcStep(i)).procs[j])
  {
    var r := Next(s, ProcStep(i));
    var b := s.procs[i].batch;
    SoleHolder(s, i);
    QueuedSameItems(s.batches, b, r.batches[b]);
    if Marked(r.procs[j]) {
      var k := r.procs[j].batch;
      if j == i {
        assert r.batches[..k + 1] == r.batches;
      } else {
        assert r.batches[..k + 1] == s.batches[..k + 1];
      }
    }
  }

  lemma CloseItemsStep<E>(s: State<E>, i: nat)
    requires Inv(s) && Enabled(s, ProcStep(i)) && s.procs[i].FlushCloseItems?
    ensures Inv(Next(s, ProcStep(i)))
  {
    var r := Next(s, ProcStep(i));
    SoleHolder(s, i);
    HolderCountUpdate(s.procs, i, r.procs[i]);
    QueuedSameItems(s.batches, s.procs[i].batch, r.batches[s.procs[i].batch]);
    forall j | 0 <= j < |r.procs|
      ensures MarkInv(r, r.procs[j])
    {
      CloseItemsMark(s, i, j);
    }
  }

  /** A batch added at the end disturbs no mark. */
  lemma MarkKept<E>(s: State<E>, r: State<E>, p: Proc<E>)
    requires WellFormed(s) && WellFormed(r) && ProcInRange(p, |s.batches|) && MarkInv(s, p)
    requires r.batches == s.batches + [FreshBatch()] && r.accepted == s.accepted && r.taken == s.taken && r.finished == s.finished
    ensures ProcInRange(p, |r.batches|) && MarkInv(r, p)
  {
    if Marked(p) {
      assert r.batches[..p.batch + 1] == s.batches[..p.batch + 1];
    }
  }

  lemma PutNewToken<E>(s: State<E>, i: nat)
    requires Inv(s) && Enabled(s, ProcStep(i)) && s.procs[i].FlushPutNew?
    ensures TokenInv(Next(s, ProcStep(i))) && ChainInv(Next(s, ProcStep(i)))
  {
    var r := StepProc(s, i);
    SoleHolder(s, i);
    HolderCountUpdate(s.procs, i, r.procs[i]);
  }

  lemma PutNewProcs<E>(s: State<E>, i: nat)
    requires Inv(s) && Enabled(s, ProcStep(i)) && s.procs[i].FlushPutNew?
    ensures var r := Next(s, ProcStep(i));
      WellFormed(r) && forall j :: 0 <= j < |r.procs| ==> ProcInv(r, r.procs[j])
  {
  }

  lemma PutNewStep<E>(s: State<E>, i: nat)
    requires Inv(s) && Enabled(s, ProcStep(i)) && s.procs[i].FlushPutNew?
    ensures Inv(Next(s, ProcStep(i)))
  {
    var r := StepProc(s, i);
    PutNewToken(s, i);
    PutNewProcs(s, i);
    QueuedAppend(s.batches, FreshBatch());
    forall j | 0 <= j < |r.procs|
      ensures MarkInv(r, r.procs[j])
    {
      MarkKept(s, r, s.procs[j]);
    }
  }

  lemma HandoffToken<E>(s: State<E>, i: nat)
    requires Inv(s) && Enabled(s, Handoff(i))
    ensures TokenInv(Next(s, Handoff(i))) && !Next(s, Handoff(i)).panicked
  {
    SoleHolder(s, i);
    HolderCountUpdate(s.procs, i, Next(s, Handoff(i)).procs[i]);
  }

  lemma HandoffLedger<E>(s: State<E>, i: nat)
    requires Inv(s) && Enabled(s, Handoff(i))
    ensures LedgerInv(Next(s, Handoff(i))) && Queued(s.batches) == []
  {
    QueuedAllEmpty(s.batches);
  }

  lemma HandoffStep<E>(s: State<E>, i: nat)
    requires Inv(s) && Enabled(s, Handoff(i))
    ensures Inv(Next(s, Handoff(i)))
  {
    var r := Next(s, Handoff(i));
    HandoffToken(s, i);
    HandoffLedger(s, i);
    forall j | 0 <= j < |r.procs|
      ensures MarkInv(r, r.procs[j])
    {
      if Marked(r.procs[j]) {
        assert MarkInv(s, s.procs[j]) && s.batches[r.procs[j].batch].doneClosed;
      }
    }
  }

  lemma WorkerTokenStep<E>(s: State<E>)
    requires Inv(s) && Enabled(s, WorkerStep) && (s.worker.Receive? || s.worker.GiveBack?)
    ensures Inv(Next(s, WorkerStep))
  {
    NoHolder(s);
  }

  lemma CloseStartedToken<E>(s: State<E>)
    requires Inv(s) && Enabled(s, WorkerStep) && s.worker.CloseStarted?
    ensures TokenInv(Next(s, WorkerStep)) && ChainInv(Next(s, WorkerStep)) && LedgerInv(Next(s, WorkerStep))
    ensures !s.batches[s.worker.batch].itemsClosed && s.worker.batch == Current(s)
  {
    NoHolder(s);
    QueuedSameItems(s.batches, s.worker.batch, Next(s, WorkerStep).batches[s.worker.batch]);
  }

  lemma CloseStartedStep<E>(s: State<E>)
    requires Inv(s) && Enabled(s, WorkerStep) && s.worker.CloseStarted?
    ensures Inv(Next(s, WorkerStep))
  {
    var r := Next(s, WorkerStep);
    CloseStartedToken(s);
    forall j | 0 <= j < |r.procs|
      ensures MarkInv(r, r.procs[j])
    {
      if Marked(r.procs[j]) {
        var k := r.procs[j].batch;
        assert r.batches[..k + 1] == s.batches[..k + 1];
      }
    }
  }

  lemma TakeMark<E>(s: State<E>, j: nat)
    requires Inv(s) && Enabled(s, WorkerStep) && s.worker.Loop? && s.batches[s.worker.batch].items != []
    requires j < |s.procs|
    ensures MarkInv(Next(s, WorkerStep), s.procs[j])
  {
    var r := Next(s, WorkerStep);
    var b := s.worker.batch;
    if Marked(s.procs[j]) {
      var k := s.procs[j].batch;
      if b <= k {
        assert r.batches[..k + 1] == s.batches[..k + 1][b := r.batches[b]];
        QueuedTake(s.batches[..k + 1], b, r.batches[b]);
      } else {
        assert s.batches[k].doneClosed;
      }
    }
  }

  lemma TakeStep<E>(s: State<E>)
    requires Inv(s) && Enabled(s, WorkerStep) && s.worker.Loop? && s.batches[s.worker.batch].items != []
    ensures Inv(Next(s, WorkerStep))
  {
    var r := Next(s, WorkerStep);
    var b := s.worker.batch;
    QueuedTake(s.batches, b, r.batches[b]);
    forall j | 0 <= j < |r.procs|
      ensures MarkInv(r, r.procs[j])
    {
      TakeMark(s, j);
    }
  }

  lemma LoopStep<E>(s: State<E>)
    requires Inv(s) && Enabled(s, WorkerStep)
    requires s.worker.Busy? || (s.worker.Loop? && s.batches[s.worker.batch].items == [])
    ensures Inv(Next(s, WorkerStep))
  {
  }

  lemma CloseDoneMark<E>(s: State<E>, j: nat)
    requires Inv(s) && Enabled(s, WorkerStep) && s.worker.CloseDone? && j < |s.procs|
    ensures MarkInv(Next(s, WorkerStep), s.procs[j])
  {
    var r := Next(s, WorkerStep);
    var b := s.worker.batch;
    if Marked(s.procs[j]) {
      var k := s.procs[j].batch;
      if k == b {
        QueuedAllEmpty(s.batches[..k + 1]);
      } else if b < k {
        assert r.batches[..k + 1] == s.batches[..k + 1][b := r.batches[b]];
        QueuedSameItems(s.batches[..k + 1], b, r.batches[b]);
      }
    }
  }

  lemma CloseDoneChain<E>(s: State<E>)
    requires Inv(s) && Enabled(s, WorkerStep) && s.worker.CloseDone?
    ensures TokenInv(Next(s, WorkerStep)) && ChainInv(Next(s, WorkerStep)) && LedgerInv(Next(s, WorkerStep))
  {
    QueuedSameItems(s.batches, s.worker.batch, Next(s, WorkerStep).batches[s.worker.batch]);
  }

  lemma CloseDoneStep<E>(s: State<E>)
    requires Inv(s) && Enabled(s, WorkerStep) && s.worker.CloseDone?
    ensures Inv(Next(s, WorkerStep))
  {
    var r := Next(s, WorkerStep);
    CloseDoneChain(s);
    forall j | 0 <= j < |r.procs|
      ensures MarkInv(r, r.procs[j])
    {
      CloseDoneMark(s, j);
    }
  }

  lemma StopStep<E>(s: State<E>)
    requires Inv(s) && Enabled(s, WorkerStop)
    ensures Inv(Next(s, WorkerStop))
  {
  }

  lemma StepKeepsInv<E>(s: State<E>, l: Label<E>)
    requires Inv(s) && Enabled(s, l)
    ensures Inv(Next(s, l))
  {
    match l {
      case CallSend(_) => CallStep(s, l);
      case CallFlush => CallStep(s, l);
      case CallClose => CallStep(s, l);
      case Handoff(i) => HandoffStep(s, i);
      case Timeout(_) => EndFlushStep(s, l);
      case WorkerStop => StopStep(s);
      case WorkerStep =>
        match s.worker {
          case Receive => WorkerTokenStep(s);
          case GiveBack(_) => WorkerTokenStep(s);
          case CloseStarted(_) => CloseStartedStep(s);
          case Loop(b) => if s.batches[b].items != [] { TakeStep(s); } else { LoopStep(s); }
          case Busy(_, _) => LoopStep(s);
          case CloseDone(_) => CloseDoneStep(s);
        }
      case ProcStep(i) =>
        match s.procs[i] {
          case SendAcquire(_) => AcquireStep(s, i);
          case FlushSelect => AcquireStep(s, i);
          case SendRelease(_) => ReleaseStep(s, i);
          case FlushPutBack(_) => ReleaseStep(s, i);
          case SendSelect(_, b) =>
            if |s.batches[b].items| < s.capacity { AcceptStep(s, i); } else { OverflowStep(s, i); }
          case FlushCheck(_) => CheckStep(s, i);
          case FlushCloseItems(_) => CloseItemsStep(s, i);
          case FlushPutNew(_, _) => PutNewStep(s, i);
          case FlushWait(_, _) => EndFlushStep(s, l);
        }
    }
  }
}
