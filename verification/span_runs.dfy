/** What holds of spans in every run of StartSpan and Finish (span_recorder.go, tracing.go). */
module SpanRuns {
  import opened BufferModels
  import opened Outcomes
  import opened Spans
  import opened Wrappers

  datatype Op =
    | Start(parent: Option<nat>, traceID: int, spanID: int, parentSpanID: int, explicitSampled: Sampled, drawn: Sampled)
    | Finish(span: nat, ignored: bool)

  ghost predicate Legal(t: Trace, op: Op) {
    && Linked(t)
    && match op
       case Start(parent, _, _, _, _, _) => parent.Some? ==> parent.value < |t.spans|
       case Finish(s, _) => s < |t.spans|
  }

  ghost function Do(t: Trace, o: Options, op: Op): Trace
    requires Legal(t, op)
  {
    match op
    case Start(parent, traceID, spanID, parentSpanID, e, drawn) =>
      if Panics(o, parent) then t else Started(t, o, parent, traceID, spanID, parentSpanID, e, drawn)
    case Finish(s, ignored) => Ended(t, o, s, ignored)
  }

  ghost predicate IsRun(ts: seq<Trace>, ops: seq<Op>, o: Options) {
    && |ts| == |ops| + 1 && ts[0] == Trace([], [])
    && forall i :: 0 <= i < |ops| ==> Legal(ts[i], ops[i]) && ts[i + 1] == Do(ts[i], o, ops[i])
  }

  // ---------------------------------------------------------------------------
  // The span tree
  // ---------------------------------------------------------------------------

  /** A span hangs below an earlier span of its trace, and is recorded unless the recorder is full. */
  ghost predicate SpanOk(t: Trace, o: Options, i: nat)
    requires Linked(t) && i < |t.spans|
  {
    var x := t.spans[i];
    && (x.parent.Some? ==>
          && x.parent.value < i
          && var up := t.spans[x.parent.value];
             x.recorder == up.recorder && x.traceID == up.traceID && x.parentSpanID == up.spanID)
    && (i in t.recorders[x.recorder] || |t.recorders[x.recorder]| == o.maxSpans)
    && (x.parent.None? ==> i in t.recorders[x.recorder])
  }

  /** A recorder is bounded, holds its root first and then descendants in the order in which they
      were started, and is closed under parent. */
  ghost predicate RecorderOk(t: Trace, o: Options, r: nat)
    requires Linked(t) && r < |t.recorders|
  {
    var ids := t.recorders[r];
    && 1 <= |ids| <= o.maxSpans
    && (forall j, k :: 0 <= j < k < |ids| ==> ids[j] < ids[k])
    && (forall k :: 0 <= k < |ids| ==> t.spans[ids[k]].recorder == r && (t.spans[ids[k]].parent.None? <==> k == 0))
    && (forall k :: 0 < k < |ids| ==> t.spans[ids[k]].parent.value in ids)
  }

  ghost predicate TreeOk(t: Trace, o: Options) {
    && Linked(t)
    && (forall i :: 0 <= i < |t.spans| ==> SpanOk(t, o, i))
    && (forall r :: 0 <= r < |t.recorders| ==> RecorderOk(t, o, r))
  }

  lemma StartSpanOk(t: Trace, o: Options, op: Op, i: nat)
    requires TreeOk(t, o) && Legal(t, op) && op.Start? && Linked(Do(t, o, op))
    requires i < |Do(t, o, op).spans|
    ensures SpanOk(Do(t, o, op), o, i)
  {
    if i < |t.spans| {
      assert SpanOk(t, o, i);
      var r := t.spans[i].recorder;
      assert Do(t, o, op).recorders[r] == t.recorders[r]
        || Do(t, o, op).recorders[r] == t.recorders[r] + [|t.spans|];
      assert RecorderOk(t, o, r);
    } else if op.parent.Some? {
      assert RecorderOk(t, o, t.spans[op.parent.value].recorder);
      var r := t.spans[op.parent.value].recorder;
      assert |t.recorders[r]| < o.maxSpans ==> Do(t, o, op).recorders[r] == t.recorders[r] + [i];
    } else {
      assert Do(t, o, op).recorders[|t.recorders|] == [i];
    }
  }

  /** A new span is appended to the recorder of its parent, if there is room. */
  lemma ChildRecorderOk(t: Trace, o: Options, op: Op)
    requires TreeOk(t, o) && Legal(t, op) && op.Start? && op.parent.Some? && Linked(Do(t, o, op))
    ensures RecorderOk(Do(t, o, op), o, t.spans[op.parent.value].recorder)
  {
    var r := t.spans[op.parent.value].recorder;
    assert RecorderOk(t, o, r) && SpanOk(t, o, op.parent.value);
    assert Do(t, o, op).recorders[r] == Recorded(t.recorders[r], |t.spans|, o.maxSpans);
  }

  lemma StartRecorderOk(t: Trace, o: Options, op: Op, r: nat)
    requires TreeOk(t, o) && Legal(t, op) && op.Start? && Linked(Do(t, o, op))
    requires r < |Do(t, o, op).recorders|
    ensures RecorderOk(Do(t, o, op), o, r)
  {
    if op.parent.Some? && r == t.spans[op.parent.value].recorder {
      ChildRecorderOk(t, o, op);
    } else if r < |t.recorders| {
      assert RecorderOk(t, o, r);
    }
  }

  lemma StartLinked(t: Trace, o: Options, op: Op)
    requires Legal(t, op) && op.Start?
    ensures Linked(Do(t, o, op))
  {
  }

  lemma StepTreeOk(t: Trace, o: Options, op: Op)
    requires TreeOk(t, o) && Legal(t, op)
    ensures TreeOk(Do(t, o, op), o)
  {
    var t' := Do(t, o, op);
    if op.Start? {
      StartLinked(t, o, op);
      forall i | 0 <= i < |t'.spans| ensures SpanOk(t', o, i) { StartSpanOk(t, o, op, i); }
      forall r | 0 <= r < |t'.recorders| ensures RecorderOk(t', o, r) { StartRecorderOk(t, o, op, r); }
    } else {
      EndedLinked(t, o, op.span, op.ignored);
      forall i | 0 <= i < |t'.spans| ensures SpanOk(t', o, i) { assert SpanOk(t, o, i); }
      forall r | 0 <= r < |t'.recorders| ensures RecorderOk(t', o, r) { assert RecorderOk(t, o, r); }
    }
  }

  /** In every run the recorders hold bounded trees, closed under parent, with the root first. */
  lemma {:induction false} TreeInvariant(ts: seq<Trace>, ops: seq<Op>, o: Options, i: nat)
    requires IsRun(ts, ops, o) && i < |ts|
    ensures TreeOk(ts[i], o)
  {
    if i > 0 {
      TreeInvariant(ts, ops, o, i - 1);
      StepTreeOk(ts[i - 1], o, ops[i - 1]);
    }
  }

  /** The transaction that a span belongs to: its parents, followed to the end. */
  ghost function TransactionOf(t: Trace, o: Options, i: nat): nat
    requires TreeOk(t, o) && i < |t.spans|
    decreases i
  {
    assert SpanOk(t, o, i);
    if t.spans[i].parent.None? then i else TransactionOf(t, o, t.spans[i].parent.value)
  }

  /** The first recorded span is the transaction that the span belongs to. */
  lemma {:induction false} RootIsTransaction(t: Trace, o: Options, i: nat)
    requires TreeOk(t, o) && i < |t.spans|
    ensures TransactionOf(t, o, i) < |t.spans|
    ensures t.spans[TransactionOf(t, o, i)].recorder == t.spans[i].recorder
    ensures t.recorders[t.spans[i].recorder] != []
    ensures t.recorders[t.spans[i].recorder][0] == TransactionOf(t, o, i)
    decreases i
  {
    assert SpanOk(t, o, i) && RecorderOk(t, o, t.spans[i].recorder);
    if t.spans[i].parent.Some? {
      RootIsTransaction(t, o, t.spans[i].parent.value);
    }
  }

  /** The recorded children of a transaction belong to it, and while the recorder is not full they
      are all the other spans that do. */
  lemma ChildrenBelong(t: Trace, o: Options, r: nat, x: nat)
    requires TreeOk(t, o) && r < |t.recorders| && x < |t.spans|
    ensures var ids := t.recorders[r];
      && ids != []
      && (x in ChildrenOf(ids) ==> x != ids[0] && TransactionOf(t, o, x) == ids[0])
      && (|ids| < o.maxSpans && x != ids[0] && TransactionOf(t, o, x) == ids[0] ==> x in ChildrenOf(ids))
  {
    assert RecorderOk(t, o, r) && SpanOk(t, o, x);
    var ids := t.recorders[r];
    assert ids == [ids[0]] + ids[1..];
    RootIsTransaction(t, o, x);
  }

  /** Without room for a span, every StartSpan panics and no span ever comes into being; with room,
      none does. */
  lemma {:induction false} PanicsIff(ts: seq<Trace>, ops: seq<Op>, o: Options, i: nat)
    requires IsRun(ts, ops, o) && i < |ops| && ops[i].Start?
    ensures Panics(o, ops[i].parent) <==> o.maxSpans < 1
    ensures o.maxSpans < 1 ==> ts[i] == Trace([], [])
  {
    if o.maxSpans < 1 {
      NoSpans(ts, ops, o, i);
      assert Legal(ts[i], ops[i]);
    }
  }

  lemma {:induction false} NoSpans(ts: seq<Trace>, ops: seq<Op>, o: Options, i: nat)
    requires IsRun(ts, ops, o) && i < |ts| && o.maxSpans < 1
    ensures ts[i] == Trace([], [])
  {
    if i > 0 {
      NoSpans(ts, ops, o, i - 1);
      assert Legal(ts[i - 1], ops[i - 1]) && ts[i] == Do(ts[i - 1], o, ops[i - 1]);
    }
  }

  /** All spans of a recorder share the trace of its root. */
  lemma {:induction false} SameTrace(t: Trace, o: Options, i: nat)
    requires TreeOk(t, o) && i < |t.spans|
    ensures t.recorders[t.spans[i].recorder] != []
    ensures t.spans[i].traceID == t.spans[t.recorders[t.spans[i].recorder][0]].traceID
  {
    assert SpanOk(t, o, i) && RecorderOk(t, o, t.spans[i].recorder);
    if t.spans[i].parent.Some? {
      SameTrace(t, o, t.spans[i].parent.value);
    }
  }

  // ---------------------------------------------------------------------------
  // The event
  // ---------------------------------------------------------------------------

  lemma {:induction false} EndedOnlyMembers(spans: seq<Span>, ids: seq<nat>, x: nat)
    requires forall i :: 0 <= i < |ids| ==> ids[i] < |spans|
    ensures x in EndedOnly(spans, ids) <==> x in ids && spans[x].ended
  {
    if ids != [] {
      var n := |ids| - 1;
      EndedOnlyMembers(spans, ids[..n], x);
      assert ids == ids[..n] + [ids[n]];
    }
  }

  lemma {:induction false} EndedOnlyIncreasing(spans: seq<Span>, ids: seq<nat>)
    requires forall i :: 0 <= i < |ids| ==> ids[i] < |spans|
    requires forall j, k :: 0 <= j < k < |ids| ==> ids[j] < ids[k]
    ensures forall j, k :: 0 <= j < k < |EndedOnly(spans, ids)| ==> EndedOnly(spans, ids)[j] < EndedOnly(spans, ids)[k]
  {
    if ids != [] {
      var n := |ids| - 1;
      EndedOnlyIncreasing(spans, ids[..n]);
      var init := EndedOnly(spans, ids[..n]);
      forall j | 0 <= j < |init|
        ensures init[j] < ids[n]
      {
        EndedOnlyMembers(spans, ids[..n], init[j]);
      }
    }
  }

  /** A root comes first in its recorder; the rest are its children, in the order of their start. */
  lemma RootAndChildren(t: Trace, o: Options, s: nat)
    requires TreeOk(t, o) && s < |t.spans| && t.spans[s].parent.None?
    ensures var ids := t.recorders[t.spans[s].recorder];
      var children := ChildrenOf(ids);
      && ids == [s] + children && s !in children && |ids| <= o.maxSpans
      && forall j, k :: 0 <= j < k < |children| ==> children[j] < children[k]
  {
    assert SpanOk(t, o, s) && RecorderOk(t, o, t.spans[s].recorder);
  }

  /** The event of a transaction carries exactly the recorded spans below it that have ended, in
      the order in which they were started. */
  lemma EventSpans(t: Trace, o: Options, s: nat, ignored: bool)
    requires TreeOk(t, o) && s < |t.spans| && Finished(t, o, s, ignored).Captured?
    ensures var e := Finished(t, o, s, ignored).event;
      && e.root == s && e.traceID == t.spans[s].traceID
      && (forall x :: x in e.spans <==> x in t.recorders[t.spans[s].recorder] && x != s && t.spans[x].ended)
      && (forall j, k :: 0 <= j < k < |e.spans| ==> e.spans[j] < e.spans[k])
      && |e.spans| < o.maxSpans
  {
    var t' := Ended(t, o, s, ignored);
    EndedLinked(t, o, s, ignored);
    RootAndChildren(t, o, s);
    var children := ChildrenOf(t.recorders[t.spans[s].recorder]);
    forall x: nat
      ensures x in EndedOnly(t'.spans, children) <==> x in children && t.spans[x].ended
    {
      EndedOnlyMembers(t'.spans, children, x);
    }
    EndedOnlyIncreasing(t'.spans, children);
    EndedOnlyLength(t'.spans, children);
  }

  lemma {:induction false} EndedOnlyLength(spans: seq<Span>, ids: seq<nat>)
    requires forall i :: 0 <= i < |ids| ==> ids[i] < |spans|
    ensures |EndedOnly(spans, ids)| <= |ids|
  {
    if ids != [] {
      EndedOnlyLength(spans, ids[..|ids| - 1]);
    }
  }

  /** If the recorder is not full, no ended span of the transaction is missing. */
  lemma EventComplete(t: Trace, o: Options, s: nat, ignored: bool, x: nat)
    requires TreeOk(t, o) && s < |t.spans| && Finished(t, o, s, ignored).Captured?
    requires x < |t.spans| && x != s && t.spans[x].recorder == t.spans[s].recorder && t.spans[x].ended
    requires |t.recorders[t.spans[s].recorder]| < o.maxSpans
    ensures x in Finished(t, o, s, ignored).event.spans
  {
    assert SpanOk(t, o, x);
    EventSpans(t, o, s, ignored);
  }

  /** Which spans come to what: the first Finish of a root that is not ignored captures it if it is sampled and
      records it as sampled out otherwise; nothing else leads to anything. */
  lemma FinishDecides(t: Trace, o: Options, s: nat, ignored: bool)
    requires Linked(t) && s < |t.spans|
    ensures var x, r := t.spans[s], Finished(t, o, s, ignored);
      var settles := !x.ended && x.parent.None? && !(o.ignores && ignored);
      && (r.Captured? <==> settles && x.sampled == SampledTrue)
      && (r.SampledOut? <==> settles && x.sampled != SampledTrue)
      && (r.Nothing? <==> !settles)
  {
  }

  /** Finish ends this span and no other, once; only an ignored root loses its sampling decision. */
  lemma FinishEnds(t: Trace, o: Options, s: nat, ignored: bool, i: nat)
    requires s < |t.spans| && i < |t.spans|
    ensures var t', x := Ended(t, o, s, ignored), t.spans[i];
      && |t'.spans| == |t.spans| && t'.recorders == t.recorders && t'.spans[s].ended
      && (i != s || x.ended ==> t'.spans[i] == x)
      && (t'.spans[i].sampled != x.sampled ==> i == s && x.parent.None? && o.ignores && ignored && t'.spans[i].sampled == SampledFalse)
  {
  }

  /** A new span has the id that was drawn for it and has not ended; a root also keeps the trace that was drawn
      for it or came in, and has no earlier span of its trace above it. */
  lemma StartedSpan(ts: seq<Trace>, ops: seq<Op>, o: Options, i: nat)
    requires IsRun(ts, ops, o) && i < |ops| && ops[i].Start? && o.maxSpans >= 1
    ensures var n, op := |ts[i].spans|, ops[i];
      && |ts[i + 1].spans| == n + 1 && ts[i + 1].spans[..n] == ts[i].spans
      && var x := ts[i + 1].spans[n];
         && x.spanID == op.spanID && !x.ended && x.parent == op.parent && x.explicitSampled == op.explicitSampled
         && (op.parent.None? ==> x.traceID == op.traceID && x.parentSpanID == op.parentSpanID)
  {
    assert Legal(ts[i], ops[i]) && ts[i + 1] == Do(ts[i], o, ops[i]);
  }

  /** The decision for a root: off without tracing, else its own, else the drawn one. */
  lemma RootDecides(ts: seq<Trace>, ops: seq<Op>, o: Options, i: nat)
    requires IsRun(ts, ops, o) && i < |ops| && ops[i].Start? && ops[i].parent.None? && o.maxSpans >= 1
    ensures var n := |ts[i].spans|;
      && |ts[i + 1].spans| == n + 1 && ts[i + 1].recorders == ts[i].recorders + [[n]]
      && ts[i + 1].spans[n].sampled ==
           if !o.enableTracing then SampledFalse
           else if ops[i].explicitSampled != SampledUndefined then ops[i].explicitSampled else ops[i].drawn
  {
    assert Legal(ts[i], ops[i]) && ts[i + 1] == Do(ts[i], o, ops[i]);
    assert Recorded([], |ts[i].spans|, o.maxSpans) == [|ts[i].spans|];
  }

  /** A transaction that is sampled out records itself and every span that its recorder holds. */
  lemma SampledOutCounts(t: Trace, o: Options, s: nat, ignored: bool)
    requires TreeOk(t, o) && s < |t.spans| && Finished(t, o, s, ignored).SampledOut?
    ensures var records := Finished(t, o, s, ignored).records;
      && t.spans[s].parent.None?
      && Amount(records, OutcomeKey(SampleRate, CategoryTransaction)) == 1
      && Amount(records, OutcomeKey(SampleRate, CategorySpan)) == |t.recorders[t.spans[s].recorder]|
  {
    assert RecorderOk(t, o, t.spans[s].recorder);
    var records := Finished(t, o, s, ignored).records;
    forall key: OutcomeKey
      ensures Amount(records, key) == Effect(records[0], key) + Effect(records[1], key)
    {
      assert Amount(records, key) == Effect(records[0], key) + Amount(records[1..], key);
      assert Amount(records[1..], key) == Effect(records[1], key) + Amount(records[1..][1..], key);
    }
  }

  // ---------------------------------------------------------------------------
  // Sampling
  // ---------------------------------------------------------------------------

  /** A span decides like its parent, unless it was told otherwise or tracing is off. */
  ghost predicate Inherits(t: Trace, o: Options) {
    forall i :: 0 <= i < |t.spans| ==>
      var x := t.spans[i];
      if !o.enableTracing then x.sampled == SampledFalse
      else if x.explicitSampled != SampledUndefined then x.sampled == x.explicitSampled
      else x.parent.Some? ==> x.parent.value < i && x.sampled == t.spans[x.parent.value].sampled
  }

  lemma {:induction false} SamplingInherited(ts: seq<Trace>, ops: seq<Op>, o: Options, i: nat)
    requires IsRun(ts, ops, o) && !o.ignores && i < |ts|
    ensures Inherits(ts[i], o)
  {
    if i > 0 {
      SamplingInherited(ts, ops, o, i - 1);
      assert Legal(ts[i - 1], ops[i - 1]) && ts[i] == Do(ts[i - 1], o, ops[i - 1]);
    }
  }

  /** Spans without a decision of their own share the decision of their transaction. */
  lemma {:induction false} SampledTogether(t: Trace, o: Options, i: nat)
    requires TreeOk(t, o) && Inherits(t, o) && i < |t.spans|
    requires forall k :: 0 <= k < |t.spans| && t.spans[k].parent.Some? ==> t.spans[k].explicitSampled == SampledUndefined
    ensures t.recorders[t.spans[i].recorder] != []
    ensures t.spans[i].sampled == t.spans[t.recorders[t.spans[i].recorder][0]].sampled
  {
    assert SpanOk(t, o, i) && RecorderOk(t, o, t.spans[i].recorder);
    if t.spans[i].parent.Some? {
      SampledTogether(t, o, t.spans[i].parent.value);
    }
  }
}
