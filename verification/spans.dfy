/** The bounded span tree of a transaction (span_recorder.go, tracing.go). */
module Spans {
  import opened BufferModels
  import opened Outcomes
  import opened Wrappers

  datatype Sampled = SampledUndefined | SampledFalse | SampledTrue

  /** `recorder` is the index of the recorder that the span shares with its parent. */
  datatype Span = Span(
    parent: Option<nat>,
    traceID: int,
    spanID: int,
    parentSpanID: int,
    explicitSampled: Sampled,
    sampled: Sampled,
    recorder: nat,
    ended: bool)

  /** MaxSpans is a constant; `ignores` says whether TraceIgnoreStatusCodes is set. */
  datatype Options = Options(maxSpans: int, enableTracing: bool, ignores: bool)

  /** All spans in the order in which they were started, and what the recorders hold. */
  datatype Trace = Trace(spans: seq<Span>, recorders: seq<seq<nat>>)

  datatype Event = Event(root: nat, traceID: int, spans: seq<nat>)

  /** What the first Finish of a span leads to. */
  datatype Outcome = Nothing | SampledOut(records: seq<Record>) | Captured(event: Event)

  // ---------------------------------------------------------------------------
  // The recorder
  // ---------------------------------------------------------------------------

  function Recorded(spans: seq<nat>, s: nat, maxSpans: int): seq<nat> {
    if |spans| >= maxSpans then spans else spans + [s]
  }

  class SpanRecorder {
    var spans: seq<nat>
    var overflowed: bool

    constructor ()
      ensures spans == [] && !overflowed
    {
      spans, overflowed := [], false;
    }

    /** record; a `maxSpans` below 1 makes the first call read the root of an empty recorder. */
    method Record(s: nat, maxSpans: int) returns (panicked: bool)
      modifies this
      ensures spans == Recorded(old(spans), s, maxSpans)
      ensures panicked <==> old(spans) == [] && maxSpans < 1 && !old(overflowed)
      ensures overflowed == (old(overflowed) || |old(spans)| >= maxSpans)
    {
      panicked := false;
      if |spans| >= maxSpans {
        if !overflowed {
          overflowed := true;
          panicked := |spans| == 0;
        }
        return;
      }
      spans := spans + [s];
    }

    /** root */
    method Root() returns (root: Option<nat>)
      ensures root == if spans == [] then None else Some(spans[0])
    {
      if |spans| == 0 {
        return None;
      }
      return Some(spans[0]);
    }

    /** children */
    method Children() returns (children: seq<nat>)
      ensures children == ChildrenOf(spans)
    {
      if |spans| < 2 {
        return [];
      }
      return spans[1..];
    }
  }

  function ChildrenOf(spans: seq<nat>): seq<nat> {
    if |spans| < 2 then [] else spans[1..]
  }

  // ---------------------------------------------------------------------------
  // StartSpan and Finish
  // ---------------------------------------------------------------------------

  /** sample: the decision for a new span; `drawn` is what the sampler, the decision of an
      incoming trace or the sample rate says about a transaction. */
  function Decide(o: Options, explicitSampled: Sampled, parent: Option<Sampled>, drawn: Sampled): Sampled {
    if !o.enableTracing then SampledFalse
    else if explicitSampled != SampledUndefined then explicitSampled
    else if parent.Some? then parent.value
    else drawn
  }

  /** The first span of a transaction, when no span may be recorded: record reads the root of an empty recorder. */
  predicate Panics(o: Options, parent: Option<nat>) {
    parent.None? && o.maxSpans < 1
  }

  /** The fields of a new span. */
  function NewSpan(t: Trace, o: Options, parent: Option<nat>, traceID: int, spanID: int, parentSpanID: int,
                   explicitSampled: Sampled, drawn: Sampled): Span
    requires parent.Some? ==> parent.value < |t.spans|
  {
    match parent
    case Some(p) =>
      var up := t.spans[p];
      Span(parent, up.traceID, spanID, up.spanID, explicitSampled,
        Decide(o, explicitSampled, Some(up.sampled), drawn), up.recorder, false)
    case None =>
      Span(None, traceID, spanID, parentSpanID, explicitSampled,
        Decide(o, explicitSampled, None, drawn), |t.recorders|, false)
  }

  /** The span is recorded with its parent, or in a recorder of its own. */
  function Adopted(t: Trace, o: Options, span: Span): Trace
    requires Linked(t) && span.recorder <= |t.recorders|
  {
    var n, r := |t.spans|, span.recorder;
    Trace(t.spans + [span],
      if r < |t.recorders| then t.recorders[r := Recorded(t.recorders[r], n, o.maxSpans)]
      else t.recorders + [Recorded([], n, o.maxSpans)])
  }

  function Started(t: Trace, o: Options, parent: Option<nat>, traceID: int, spanID: int, parentSpanID: int,
                   explicitSampled: Sampled, drawn: Sampled): Trace
    requires Linked(t) && (parent.Some? ==> parent.value < |t.spans|)
  {
    Adopted(t, o, NewSpan(t, o, parent, traceID, spanID, parentSpanID, explicitSampled, drawn))
  }

  function EndedOnly(spans: seq<Span>, ids: seq<nat>): seq<nat>
    requires forall i :: 0 <= i < |ids| ==> ids[i] < |spans|
  {
    if ids == [] then []
    else EndedOnly(spans, ids[..|ids| - 1]) + if spans[ids[|ids| - 1]].ended then [ids[|ids| - 1]] else []
  }

  /** toEvent. */
  function EventOf(t: Trace, s: nat): Event
    requires Linked(t) && s < |t.spans|
  {
    Event(s, t.spans[s].traceID, EndedOnly(t.spans, ChildrenOf(t.recorders[t.spans[s].recorder])))
  }

  /** doFinish; `ignored` says whether the status code of the transaction is to be ignored.
      A span that has already ended is not finished again. */
  function Ended(t: Trace, o: Options, s: nat, ignored: bool): Trace
    requires s < |t.spans|
  {
    if t.spans[s].ended then t
    else
      var x := t.spans[s].(ended := true);
      t.(spans := t.spans[s := if x.parent.None? && o.ignores && ignored then x.(sampled := SampledFalse) else x])
  }

  /** The rest of doFinish, for a span that has ended and is not ignored. */
  function Settled(t: Trace, s: nat): Outcome
    requires Linked(t) && s < |t.spans|
  {
    var x := t.spans[s];
    if x.parent.Some? then Nothing
    else if !x.sampled.SampledTrue? then
      SampledOut([Record(OutcomeKey(SampleRate, CategoryTransaction), 1),
                  Record(OutcomeKey(SampleRate, CategorySpan), |ChildrenOf(t.recorders[x.recorder])| + 1)])
    else Captured(EventOf(t, s))
  }

  function Finished(t: Trace, o: Options, s: nat, ignored: bool): Outcome
    requires Linked(t) && s < |t.spans|
  {
    var x := t.spans[s];
    if x.ended || (x.parent.None? && o.ignores && ignored) then Nothing
    else
      EndedLinked(t, o, s, ignored);
      Settled(Ended(t, o, s, ignored), s)
  }

  /** The recorders exist and hold existing spans. */
  ghost predicate Linked(t: Trace) {
    && (forall i :: 0 <= i < |t.spans| ==> t.spans[i].recorder < |t.recorders|)
    && (forall r, k :: 0 <= r < |t.recorders| && 0 <= k < |t.recorders[r]| ==> t.recorders[r][k] < |t.spans|)
  }

  lemma EndedLinked(t: Trace, o: Options, s: nat, ignored: bool)
    requires Linked(t) && s < |t.spans|
    ensures Linked(Ended(t, o, s, ignored))
  {
  }

  /** What the recorders hold. */
  ghost function Held(recorders: seq<SpanRecorder>): (held: seq<seq<nat>>)
    reads recorders
    ensures |held| == |recorders| && forall i :: 0 <= i < |held| ==> held[i] == recorders[i].spans
  {
    if recorders == [] then [] else Held(recorders[..|recorders| - 1]) + [recorders[|recorders| - 1].spans]
  }

  class Tracer {
    var spans: seq<Span>
    var recorders: seq<SpanRecorder>
    const options: Options

    ghost function TraceOf(): Trace
      reads this, recorders
    {
      Trace(spans, Held(recorders))
    }

    /** The recorders are different objects, and each holds the root of its transaction at least. */
    ghost predicate Valid()
      reads this, recorders
    {
      && (forall i, j :: 0 <= i < j < |recorders| ==> recorders[i] != recorders[j])
      && (forall i :: 0 <= i < |recorders| ==> recorders[i].spans != [])
      && Linked(TraceOf())
    }

    constructor (options: Options)
      ensures Valid() && TraceOf() == Trace([], []) && this.options == options
    {
      spans, recorders := [], [];
      this.options := options;
    }

    /** The new span, or None for a panic: then there is no span and its recorder is lost. */
    method StartSpan(parent: Option<nat>, traceID: int, spanID: int, parentSpanID: int, explicitSampled: Sampled,
                     drawn: Sampled) returns (s: Option<nat>)
      requires Valid() && (parent.Some? ==> parent.value < |spans|)
      modifies this, recorders
      ensures Valid() && fresh(set x | x in recorders && x !in old(recorders))
      ensures s == if Panics(options, parent) then None else Some(|old(spans)|)
      ensures TraceOf() == if s.None? then old(TraceOf())
                else Started(old(TraceOf()), options, parent, traceID, spanID, parentSpanID, explicitSampled, drawn)
    {
      var span := Span(parent, traceID, spanID, parentSpanID, explicitSampled, SampledUndefined, |recorders|, false);
      if parent.Some? {
        var up := spans[parent.value];
        span := span.(traceID := up.traceID, parentSpanID := up.spanID, recorder := up.recorder);
      }
      span := span.(sampled := Decide(options, explicitSampled,
        if parent.Some? then Some(spans[parent.value].sampled) else None, drawn));
      if parent.Some? {
        AdoptChild(span);
        return Some(|spans| - 1);
      }
      s := AdoptRoot(span);
    }

    /** The end of StartSpan with a parent: its recorder records the span and cannot panic. */
    method AdoptChild(span: Span)
      requires Valid() && span.recorder < |recorders|
      modifies this`spans, recorders
      ensures Valid() && TraceOf() == Adopted(old(TraceOf()), options, span)
    {
      ghost var before := TraceOf();
      var panicked := recorders[span.recorder].Record(|spans|, options.maxSpans);
      spans := spans + [span];
      assert TraceOf().recorders == Adopted(before, options, span).recorders;
    }

    /** The end of StartSpan without a parent: the span opens a recorder. */
    method AdoptRoot(span: Span) returns (s: Option<nat>)
      requires Valid() && span.recorder == |recorders|
      modifies this
      ensures Valid() && |recorders| <= |old(recorders)| + 1 && old(recorders) <= recorders
      ensures |recorders| > |old(recorders)| ==> fresh(recorders[|old(recorders)|])
      ensures s == if options.maxSpans < 1 then None else Some(|old(spans)|)
      ensures TraceOf() == if s.None? then old(TraceOf()) else Adopted(old(TraceOf()), options, span)
    {
      ghost var before := TraceOf();
      var recorder := new SpanRecorder();
      var panicked := recorder.Record(|spans|, options.maxSpans);
      if panicked {
        return None;
      }
      s := Some(|spans|);
      recorders := recorders + [recorder];
      spans := spans + [span];
      assert TraceOf().recorders == Adopted(before, options, span).recorders;
    }

    /** TransactionFromContext, for a context that holds span `s`. */
    method Transaction(s: nat) returns (root: nat)
      requires Valid() && s < |spans|
      ensures root == TraceOf().recorders[spans[s].recorder][0]
    {
      assert TraceOf().recorders[spans[s].recorder] == recorders[spans[s].recorder].spans;
      var first := recorders[spans[s].recorder].Root();
      root := first.value;
    }

    /** The loop of toEvent over the recorded children. */
    method FinishedChildren(ids: seq<nat>) returns (finished: seq<nat>)
      requires forall i :: 0 <= i < |ids| ==> ids[i] < |spans|
      ensures finished == EndedOnly(spans, ids)
    {
      finished := [];
      for i := 0 to |ids|
        invariant finished == EndedOnly(spans, ids[..i])
      {
        assert ids[..i + 1][..i] == ids[..i];
        if !spans[ids[i]].ended {
          continue;
        }
        finished := finished + [ids[i]];
      }
      assert ids[..|ids|] == ids;
    }

    method Finish(s: nat, ignored: bool) returns (outcome: Outcome)
      requires Valid() && s < |spans|
      modifies this`spans
      ensures Valid() && TraceOf() == Ended(old(TraceOf()), options, s, ignored)
      ensures outcome == Finished(old(TraceOf()), options, s, ignored)
    {
      if spans[s].ended {
        return Nothing;
      }
      EndedLinked(TraceOf(), options, s, ignored);
      spans := spans[s := spans[s].(ended := true)];
      if spans[s].parent.None? && options.ignores && ignored {
        spans := spans[s := spans[s].(sampled := SampledFalse)];
        return Nothing;
      }
      outcome := Settle(s);
    }

    /** The rest of doFinish. */
    method Settle(s: nat) returns (outcome: Outcome)
      requires Valid() && s < |spans|
      ensures outcome == Settled(TraceOf(), s)
    {
      if !spans[s].sampled.SampledTrue? {
        if spans[s].parent.Some? {
          return Nothing;
        }
        var children := recorders[spans[s].recorder].Children();
        return SampledOut([Record(OutcomeKey(SampleRate, CategoryTransaction), 1),
                           Record(OutcomeKey(SampleRate, CategorySpan), |children| + 1)]);
      }
      if spans[s].parent.Some? {
        return Nothing;
      }
      var children := recorders[spans[s].recorder].Children();
      assert children == ChildrenOf(TraceOf().recorders[spans[s].recorder]);
      var finished := FinishedChildren(children);
      return Captured(Event(s, spans[s].traceID, finished));
    }
  }
}
