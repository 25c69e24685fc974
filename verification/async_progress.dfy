/** What the calls on AsyncTransport (internal/http/transport.go) can come to while it is open: every
    flush can return true, and every envelope can be queued. */
module AsyncProgress {
  import opened AsyncTransports

  /** A step that queues an envelope does so for a sender that saw the transport open, with room in the
      queue, and appends it once. */
  lemma QueueStep<T>(ss: seq<State<T>>, ls: seq<Label<T>>, k: nat) returns (i: nat)
    requires IsRun(ss, ls) && k < |ls| && ss[k + 1].queued != ss[k].queued
    ensures i < |ss[k].senders| && ss[k].senders[i].Checked? && |ss[k].queue| < ss[k].queueSize && !ss[k].done
    ensures ss[k + 1].queued == ss[k].queued + [ss[k].senders[i].item]
    ensures ss[k + 1].queue == ss[k].queue + [ss[k].senders[i].item]
  {
    assert StepAt(ss, ls, k);
    i := ls[k].sender;
    RunInv(ss, ls, k);
  }

  lemma StepBound<T>(s: State<T>, l: Label<T>)
    requires Enabled(s, l) && |s.queue| <= s.queueSize
    ensures Next(s, l).queueSize == s.queueSize && |Next(s, l).queue| <= s.queueSize
  {
  }

  /** The queue never holds more than its configured size. */
  lemma {:induction false} QueueBound<T>(ss: seq<State<T>>, ls: seq<Label<T>>, i: nat)
    requires IsRun(ss, ls) && i < |ss|
    ensures ss[i].queueSize == ss[0].queueSize && |ss[i].queue| <= ss[i].queueSize
  {
    if i == 0 {
      var queueSize: nat :| ss[0] == Initial(queueSize);
    } else {
      QueueBound(ss, ls, i - 1);
      assert StepAt(ss, ls, i - 1);
      StepBound(ss[i - 1], ls[i - 1]);
    }
  }

  lemma GoOn<T>(ss: seq<State<T>>, ls: seq<Label<T>>, l: Label<T>) returns (ss': seq<State<T>>, ls': seq<Label<T>>)
    requires IsRun(ss, ls) && Enabled(ss[|ls|], l)
    ensures IsRun(ss', ls') && ss <= ss' && ss'[|ls'|] == Next(ss[|ls|], l) && Inv(ss'[|ls'|])
  {
    ss', ls' := ss + [Next(ss[|ls|], l)], ls + [l];
    forall i | 0 <= i < |ls'|
      ensures StepAt(ss', ls', i)
    {
      if i < |ls| {
        assert StepAt(ss, ls, i);
      }
    }
    RunInv(ss', ls', |ls'|);
  }

  /** What the worker's steps leave alone. */
  ghost predicate OnlyWorker<T>(s: State<T>, s': State<T>) {
    && s'.senders == s.senders && s'.closer == s.closer && s'.done == s.done && s'.queueSize == s.queueSize
    && s'.queued == s.queued && |s'.flushes| == |s.flushes| && |s'.queue| <= |s.queue|
    && forall f :: 0 <= f < |s.flushes| ==> s'.flushes[f].phase == s.flushes[f].phase
  }

  function WorkLeft<T>(s: State<T>): nat {
    match s.worker
    case Select => 0
    case Exited => 0
    case Sending(_) => 1
    case Draining(_) => 2 * |s.queue| + 1
    case DrainSending(_, _) => 2 * |s.queue| + 2
  }

  function WorkerLabel<T>(s: State<T>): Label<T> {
    if s.worker.Draining? then (if s.queue != [] then WorkerDrainTakes else WorkerAnswers) else WorkerSent
  }

  lemma WorkStep<T>(s: State<T>)
    requires Inv(s) && !s.worker.Select? && !s.worker.Exited?
    ensures Enabled(s, WorkerLabel(s)) && OnlyWorker(s, Next(s, WorkerLabel(s)))
    ensures !Next(s, WorkerLabel(s)).worker.Exited? && WorkLeft(Next(s, WorkerLabel(s))) < WorkLeft(s)
  {
  }

  /** The worker finishes what it is at and waits in its select. */
  lemma {:induction false} WorkerRests<T>(ss: seq<State<T>>, ls: seq<Label<T>>) returns (ss': seq<State<T>>, ls': seq<Label<T>>)
    requires IsRun(ss, ls) && Inv(ss[|ls|]) && !ss[|ls|].worker.Exited?
    ensures IsRun(ss', ls') && ss <= ss' && Inv(ss'[|ls'|]) && ss'[|ls'|].worker.Select?
    ensures OnlyWorker(ss[|ls|], ss'[|ls'|])
    decreases WorkLeft(ss[|ls|])
  {
    ss', ls' := ss, ls;
    if !ss[|ls|].worker.Select? {
      WorkStep(ss[|ls|]);
      ss', ls' := GoOn(ss, ls, WorkerLabel(ss[|ls|]));
      ss', ls' := WorkerRests(ss', ls');
    }
  }

  /** A request that the worker has received can be answered, and the flush returns true. */
  lemma RequestedCanReturn<T>(ss: seq<State<T>>, ls: seq<Label<T>>, f: nat) returns (ss': seq<State<T>>, ls': seq<Label<T>>)
    requires IsRun(ss, ls) && Inv(ss[|ls|]) && !ss[|ls|].worker.Exited?
    requires f < |ss[|ls|].flushes| && ss[|ls|].flushes[f].phase.Requested?
    ensures IsRun(ss', ls') && ss <= ss' && f < |ss'[|ls'|].flushes| && ss'[|ls'|].flushes[f].phase == Returned(true)
  {
    ss', ls' := WorkerRests(ss, ls);
    assert FlushOk(ss'[|ls'|], f);
    ss', ls' := GoOn(ss', ls', FlushAnswered(f));
  }

  lemma HoldingCanReturn<T>(ss: seq<State<T>>, ls: seq<Label<T>>, f: nat) returns (ss': seq<State<T>>, ls': seq<Label<T>>)
    requires IsRun(ss, ls) && Inv(ss[|ls|]) && !ss[|ls|].worker.Exited?
    requires f < |ss[|ls|].flushes| && ss[|ls|].flushes[f].phase.Holding?
    ensures IsRun(ss', ls') && ss <= ss' && f < |ss'[|ls'|].flushes| && ss'[|ls'|].flushes[f].phase == Returned(true)
  {
    ss', ls' := WorkerRests(ss, ls);
    ss', ls' := GoOn(ss', ls', FlushRequest(f));
    ss', ls' := RequestedCanReturn(ss', ls', f);
  }

  /** While nobody closes the transport every flush that has not returned can return true. */
  lemma FlushCanReturn<T>(ss: seq<State<T>>, ls: seq<Label<T>>, f: nat) returns (ss': seq<State<T>>, ls': seq<Label<T>>)
    requires IsRun(ss, ls) && ss[|ls|].closer.NotClosing?
    requires f < |ss[|ls|].flushes| && !ss[|ls|].flushes[f].phase.Returned?
    ensures IsRun(ss', ls') && ss <= ss' && f < |ss'[|ls'|].flushes| && ss'[|ls'|].flushes[f].phase == Returned(true)
  {
    RunInv(ss, ls, |ls|);
    ss', ls' := ss, ls;
    if ss[|ls|].flushes[f].phase.Requested? {
      ss', ls' := RequestedCanReturn(ss, ls, f);
    } else {
      if ss[|ls|].flushes[f].phase.Calling? {
        ss', ls' := GoOn(ss, ls, FlushLock(f));
      }
      ss', ls' := HoldingCanReturn(ss', ls', f);
    }
  }

  /** The worker makes room in the queue. */
  lemma RoomMade<T>(ss: seq<State<T>>, ls: seq<Label<T>>) returns (ss': seq<State<T>>, ls': seq<Label<T>>)
    requires IsRun(ss, ls) && Inv(ss[|ls|]) && !ss[|ls|].worker.Exited? && ss[|ls|].queueSize > 0
    ensures IsRun(ss', ls') && ss <= ss' && Inv(ss'[|ls'|]) && |ss'[|ls'|].queue| < ss'[|ls'|].queueSize
    ensures OnlyWorker(ss[|ls|], ss'[|ls'|])
  {
    QueueBound(ss, ls, |ls|);
    ss', ls' := WorkerRests(ss, ls);
    if ss'[|ls'|].queue != [] {
      ss', ls' := GoOn(ss', ls', WorkerTakes);
    }
  }

  lemma CheckedCanQueue<T>(ss: seq<State<T>>, ls: seq<Label<T>>, i: nat) returns (ss': seq<State<T>>, ls': seq<Label<T>>)
    requires IsRun(ss, ls) && Inv(ss[|ls|]) && !ss[|ls|].worker.Exited? && ss[|ls|].queueSize > 0
    requires i < |ss[|ls|].senders| && ss[|ls|].senders[i].Checked?
    ensures IsRun(ss', ls') && ss <= ss' && ss'[|ls'|].queued == ss[|ls|].queued + [ss[|ls|].senders[i].item]
  {
    ss', ls' := RoomMade(ss, ls);
    ss', ls' := GoOn(ss', ls', SendQueues(i));
  }

  /** And every envelope whose call has not returned can be queued, unless the queue has no size at all. */
  lemma SendCanQueue<T>(ss: seq<State<T>>, ls: seq<Label<T>>, i: nat) returns (ss': seq<State<T>>, ls': seq<Label<T>>)
    requires IsRun(ss, ls) && ss[|ls|].closer.NotClosing? && ss[|ls|].queueSize > 0
    requires i < |ss[|ls|].senders| && !ss[|ls|].senders[i].Finished?
    ensures IsRun(ss', ls') && ss <= ss' && ss'[|ls'|].queued == ss[|ls|].queued + [ss[|ls|].senders[i].item]
  {
    RunInv(ss, ls, |ls|);
    ss', ls' := ss, ls;
    if ss'[|ls'|].senders[i].Started? {
      ss', ls' := GoOn(ss', ls', SendLock(i));
    }
    if ss'[|ls'|].senders[i].Locked? {
      ss', ls' := GoOn(ss', ls', SendSeesOpen(i));
    }
    ss', ls' := CheckedCanQueue(ss', ls', i);
  }
}
