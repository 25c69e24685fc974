/** Event processors and the account of the spans that they remove (scope.go, client.go). */
module Processors {
  import opened BufferModels
  import opened Outcomes
  import opened Wrappers

  /** An event with its number of child spans. */
  datatype Event = Event(category: Category, spans: nat, content: int)

  /** GetSpanCount. */
  function SpanCount(e: Event): nat {
    if e.category.CategoryTransaction? then e.spans + 1 else 0
  }

  function SpanCountOf(e: Option<Event>): nat {
    if e.Some? then SpanCount(e.value) else 0
  }

  /** An event processor or a BeforeSend callback; None drops the event. */
  type Processor = Event -> Option<Event>

  // ---------------------------------------------------------------------------
  // One callback
  // ---------------------------------------------------------------------------

  /** What is recorded when a callback turns `e` into `r`. */
  function CallRecords(reason: Reason, e: Event, r: Option<Event>): seq<Record> {
    if r.None? then
      [Record(OutcomeKey(reason, e.category), 1)]
      + (if e.category.CategoryTransaction? then [Record(OutcomeKey(reason, CategorySpan), SpanCount(e))] else [])
    else if SpanCount(e) > SpanCount(r.value) then
      [Record(OutcomeKey(reason, CategorySpan), SpanCount(e) - SpanCount(r.value))]
    else []
  }

  function AddedBy(e: Event, r: Option<Event>): nat {
    if r.Some? && SpanCount(r.value) > SpanCount(e) then SpanCount(r.value) - SpanCount(e) else 0
  }

  /** The spans that are recorded as discarded. */
  function SpanDiscards(records: seq<Record>): nat {
    if records == [] then 0
    else
      (if records[0].key.category.CategorySpan? && records[0].quantity > 0 then records[0].quantity else 0)
      + SpanDiscards(records[1..])
  }

  lemma {:induction false} SpanDiscardsConcat(a: seq<Record>, b: seq<Record>)
    ensures SpanDiscards(a + b) == SpanDiscards(a) + SpanDiscards(b)
  {
    if a == [] {
      assert a + b == b;
    } else {
      assert (a + b)[1..] == a[1..] + b;
      SpanDiscardsConcat(a[1..], b);
    }
  }

  /** How many of the records are about an event and not about its spans. */
  function EventRecords(records: seq<Record>): nat {
    if records == [] then 0
    else (if records[0].key.category.CategorySpan? then 0 else 1) + EventRecords(records[1..])
  }

  lemma {:induction false} EventRecordsConcat(a: seq<Record>, b: seq<Record>)
    ensures EventRecords(a + b) == EventRecords(a) + EventRecords(b)
  {
    if a == [] {
      assert a + b == b;
    } else {
      assert (a + b)[1..] == a[1..] + b;
      EventRecordsConcat(a[1..], b);
    }
  }

  predicate IsEvent(e: Event) {
    !e.category.CategorySpan?
  }

  lemma CallLedger(reason: Reason, e: Event, r: Option<Event>)
    requires IsEvent(e)
    ensures SpanCount(e) + AddedBy(e, r) == SpanDiscards(CallRecords(reason, e, r)) + SpanCountOf(r)
    ensures EventRecords(CallRecords(reason, e, r)) == if r.None? then 1 else 0
  {
    var records := CallRecords(reason, e, r);
    if |records| > 1 {
      assert records == [records[0]] + [records[1]];
      SpanDiscardsConcat([records[0]], [records[1]]);
      EventRecordsConcat([records[0]], [records[1]]);
    }
  }

  // ---------------------------------------------------------------------------
  // A list of processors
  // ---------------------------------------------------------------------------

  /** The event after all processors, and what they had recorded. */
  function Processed(e: Event, processors: seq<Processor>): (Option<Event>, seq<Record>)
    decreases |processors|
  {
    if processors == [] then (Some(e), [])
    else
      var r := processors[0](e);
      if r.None? then (None, CallRecords(EventProcessor, e, r))
      else
        var rest := Processed(r.value, processors[1..]);
        (rest.0, CallRecords(EventProcessor, e, r) + rest.1)
  }

  /** The spans that the processors that run add. */
  function Added(e: Event, processors: seq<Processor>): nat
    decreases |processors|
  {
    if processors == [] then 0
    else
      var r := processors[0](e);
      AddedBy(e, r) + if r.None? then 0 else Added(r.value, processors[1..])
  }

  ghost predicate KeepsEvents(p: Processor) {
    forall e: Event :: IsEvent(e) && p(e).Some? ==> IsEvent(p(e).value)
  }

  ghost predicate KeepsType(p: Processor) {
    forall e: Event :: p(e).Some? ==> p(e).value.category == e.category
  }

  /** For any processors, even if they change the type of the event: the spans at the start and
      those added are the spans recorded as discarded and those left; a dropped event is recorded once. */
  lemma {:induction false} ProcessedLedger(e: Event, processors: seq<Processor>)
    requires IsEvent(e) && forall i :: 0 <= i < |processors| ==> KeepsEvents(processors[i])
    ensures var (r, records) := Processed(e, processors);
      && SpanCount(e) + Added(e, processors) == SpanDiscards(records) + SpanCountOf(r)
      && EventRecords(records) == (if r.None? then 1 else 0)
      && (r.Some? ==> IsEvent(r.value))
    decreases |processors|
  {
    if processors != [] {
      var r := processors[0](e);
      assert KeepsEvents(processors[0]);
      CallLedger(EventProcessor, e, r);
      if r.Some? {
        ProcessedLedger(r.value, processors[1..]);
        var rest := Processed(r.value, processors[1..]).1;
        SpanDiscardsConcat(CallRecords(EventProcessor, e, r), rest);
        EventRecordsConcat(CallRecords(EventProcessor, e, r), rest);
      }
    }
  }

  /** Every record is about the category of the event or about spans, if the type is kept. */
  ghost predicate About(records: seq<Record>, category: Category) {
    forall i :: 0 <= i < |records| ==> records[i].key.category == category || records[i].key.category.CategorySpan?
  }

  lemma {:induction false} ProcessedCategory(e: Event, processors: seq<Processor>)
    requires forall i :: 0 <= i < |processors| ==> KeepsType(processors[i])
    ensures About(Processed(e, processors).1, e.category)
    ensures Processed(e, processors).0.Some? ==> Processed(e, processors).0.value.category == e.category
    decreases |processors|
  {
    if processors != [] {
      assert KeepsType(processors[0]);
      if processors[0](e).Some? {
        ProcessedCategory(processors[0](e).value, processors[1..]);
      }
    }
  }

  lemma {:induction false} ProcessedConcat(e: Event, a: seq<Processor>, b: seq<Processor>)
    ensures Processed(e, a + b) ==
      var (r, records) := Processed(e, a);
      if r.None? then (r, records) else (Processed(r.value, b).0, records + Processed(r.value, b).1)
    decreases |a|
  {
    if a == [] {
      assert a + b == b;
      assert [] + Processed(e, b).1 == Processed(e, b).1;
    } else {
      assert (a + b)[1..] == a[1..] + b;
      var r := a[0](e);
      if r.Some? {
        ProcessedConcat(r.value, a[1..], b);
        var (r1, records1) := Processed(r.value, a[1..]);
        if r1.Some? {
          assert CallRecords(EventProcessor, e, r) + (records1 + Processed(r1.value, b).1)
            == (CallRecords(EventProcessor, e, r) + records1) + Processed(r1.value, b).1;
        }
      }
    }
  }

  /** After `i` processors the event is `current` and `made` has been recorded. */
  ghost predicate Reached(event: Event, processors: seq<Processor>, i: nat, current: Event, made: seq<Record>) {
    i <= |processors| &&
    Processed(event, processors) == (Processed(current, processors[i..]).0, made + Processed(current, processors[i..]).1)
  }

  lemma ReachedFirst(event: Event, processors: seq<Processor>)
    ensures Reached(event, processors, 0, event, [])
  {
    assert processors[0..] == processors;
    assert [] + Processed(event, processors).1 == Processed(event, processors).1;
  }

  lemma ReachedNext(event: Event, processors: seq<Processor>, i: nat, current: Event, made: seq<Record>)
    requires Reached(event, processors, i, current, made) && i < |processors|
    ensures var next := processors[i](current);
      var records := made + CallRecords(EventProcessor, current, next);
      if next.None? then Processed(event, processors) == (None, records)
      else Reached(event, processors, i + 1, next.value, records)
  {
    var next := processors[i](current);
    assert processors[i..][0] == processors[i] && processors[i..][1..] == processors[i + 1..];
    if next.Some? {
      var rest := Processed(next.value, processors[i + 1..]).1;
      assert made + (CallRecords(EventProcessor, current, next) + rest)
        == (made + CallRecords(EventProcessor, current, next)) + rest;
    }
  }

  /** What the loop in Scope.ApplyToEvent records for one processor. */
  method ScopeRecords(event: Event, next: Option<Event>, client: bool) returns (records: seq<Record>)
    ensures records == if client then CallRecords(EventProcessor, event, next) else []
  {
    records := [];
    var category, spanCountBefore := event.category, SpanCount(event);
    if next.None? {
      if client {
        records := records + [Record(OutcomeKey(EventProcessor, category), 1)];
        if category == CategoryTransaction {
          records := records + [Record(OutcomeKey(EventProcessor, CategorySpan), spanCountBefore)];
        }
      }
      return;
    }
    var droppedSpans := spanCountBefore - SpanCount(next.value);
    if droppedSpans > 0 {
      if client {
        records := records + [Record(OutcomeKey(EventProcessor, CategorySpan), droppedSpans)];
      }
    }
  }

  /** What the loops in Client.prepareEvent record for one processor: only a transaction is
      tested for removed spans. */
  method ClientRecords(event: Event, next: Option<Event>) returns (records: seq<Record>)
    ensures records == CallRecords(EventProcessor, event, next)
  {
    records := [];
    var category, spanCountBefore := event.category, SpanCount(event);
    if next.None? {
      records := records + [Record(OutcomeKey(EventProcessor, category), 1)];
      if category == CategoryTransaction {
        records := records + [Record(OutcomeKey(EventProcessor, CategorySpan), spanCountBefore)];
      }
      return;
    }
    if category == CategoryTransaction {
      var droppedSpans := spanCountBefore - SpanCount(next.value);
      if droppedSpans > 0 {
        records := records + [Record(OutcomeKey(EventProcessor, CategorySpan), droppedSpans)];
      }
    }
  }

  /** The loop at the end of Scope.ApplyToEvent; without a client nothing is recorded. */
  method ApplyScopeProcessors(event: Event, processors: seq<Processor>, client: bool)
    returns (r: Option<Event>, records: seq<Record>)
    ensures r == Processed(event, processors).0
    ensures records == if client then Processed(event, processors).1 else []
  {
    var current := event;
    records := [];
    ghost var made: seq<Record> := [];
    ReachedFirst(event, processors);
    for i := 0 to |processors|
      invariant Reached(event, processors, i, current, made)
      invariant records == if client then made else []
    {
      var next := processors[i](current);
      var call := ScopeRecords(current, next, client);
      records := records + call;
      ReachedNext(event, processors, i, current, made);
      if next.None? {
        return None, records;
      }
      made := made + CallRecords(EventProcessor, current, next);
      current := next.value;
    }
    assert made + [] == made;
    r := Some(current);
  }

  /** The loops of Client.prepareEvent over client and over global processors. */
  method ApplyClientProcessors(event: Event, processors: seq<Processor>)
    returns (r: Option<Event>, records: seq<Record>)
    ensures r == Processed(event, processors).0 && records == Processed(event, processors).1
  {
    var current := event;
    records := [];
    ReachedFirst(event, processors);
    for i := 0 to |processors|
      invariant Reached(event, processors, i, current, records)
    {
      var next := processors[i](current);
      var call := ClientRecords(current, next);
      ReachedNext(event, processors, i, current, records);
      records := records + call;
      if next.None? {
        return None, records;
      }
      current := next.value;
    }
    assert records + [] == records;
    r := Some(current);
  }

  // ---------------------------------------------------------------------------
  // processEvent
  // ---------------------------------------------------------------------------

  /** The callbacks of a client; the scope is part of a call of processEvent. */
  datatype Callbacks = Callbacks(
    client: seq<Processor>,
    global: seq<Processor>,
    beforeSend: Option<Processor>,
    beforeSendTransaction: Option<Processor>)

  /** The BeforeSend stage.  BeforeSend always records an error, whatever the event was. */
  function BeforeSendStage(e: Event, c: Callbacks): (Option<Event>, seq<Record>) {
    if e.category.CategoryTransaction? then
      if c.beforeSendTransaction.None? then (Some(e), [])
      else
        var r := c.beforeSendTransaction.value(e);
        (r, CallRecords(BeforeSend, e, r))
    else if e.category.CategoryMonitor? || c.beforeSend.None? then (Some(e), [])
    else
      var r := c.beforeSend.value(e);
      (r, if r.None? then [Record(OutcomeKey(BeforeSend, CategoryError), 1)] else [])
  }

  function AddedBeforeSend(e: Event, c: Callbacks): nat {
    if e.category.CategoryTransaction? then
      if c.beforeSendTransaction.None? then 0 else AddedBy(e, c.beforeSendTransaction.value(e))
    else if e.category.CategoryMonitor? || c.beforeSend.None? then 0
    else AddedBy(e, c.beforeSend.value(e))
  }

  /** All processors, in the order in which they run. */
  function AllProcessors(scope: seq<Processor>, c: Callbacks): seq<Processor> {
    scope + c.client + c.global
  }

  /** What processEvent hands on and records; `sampled` is the draw against the sample rate. */
  function ProcessedEvent(e: Event, sampled: bool, scope: seq<Processor>, c: Callbacks): (Option<Event>, seq<Record>) {
    if !e.category.CategoryTransaction? && !e.category.CategoryMonitor? && !sampled then
      (None, [Record(OutcomeKey(SampleRate, e.category), 1)])
    else
      var (r, records) := Processed(e, AllProcessors(scope, c));
      if r.None? then (None, records)
      else (BeforeSendStage(r.value, c).0, records + BeforeSendStage(r.value, c).1)
  }

  /** The switch of processEvent on the type of the event. */
  method ApplyBeforeSend(event: Event, c: Callbacks) returns (r: Option<Event>, records: seq<Record>)
    ensures r == BeforeSendStage(event, c).0 && records == BeforeSendStage(event, c).1
  {
    r, records := Some(event), [];
    match event.category {
      case CategoryTransaction =>
        if c.beforeSendTransaction.Some? {
          var spanCountBefore := SpanCount(event);
          r := c.beforeSendTransaction.value(event);
          if r.None? {
            records := [Record(OutcomeKey(BeforeSend, CategoryTransaction), 1)]
              + [Record(OutcomeKey(BeforeSend, CategorySpan), spanCountBefore)];
            return;
          }
          var droppedSpans := spanCountBefore - SpanCount(r.value);
          if droppedSpans > 0 {
            records := [Record(OutcomeKey(BeforeSend, CategorySpan), droppedSpans)];
          }
        }
      case CategoryMonitor =>
      case _ =>
        if c.beforeSend.Some? {
          r := c.beforeSend.value(event);
          if r.None? {
            records := [Record(OutcomeKey(BeforeSend, CategoryError), 1)];
          }
        }
    }
  }

  method ProcessEvent(event: Event, sampled: bool, scope: seq<Processor>, c: Callbacks)
    returns (r: Option<Event>, records: seq<Record>)
    ensures r == ProcessedEvent(event, sampled, scope, c).0 && records == ProcessedEvent(event, sampled, scope, c).1
  {
    if event.category != CategoryTransaction && event.category != CategoryMonitor && !sampled {
      return None, [Record(OutcomeKey(SampleRate, event.category), 1)];
    }
    r, records := PrepareEvent(event, scope, c);
    if r.None? {
      return;
    }
    var more: seq<Record>;
    r, more := ApplyBeforeSend(r.value, c);
    records := records + more;
  }

  method PrepareEvent(event: Event, scope: seq<Processor>, c: Callbacks)
    returns (r: Option<Event>, records: seq<Record>)
    ensures r == Processed(event, AllProcessors(scope, c)).0 && records == Processed(event, AllProcessors(scope, c)).1
  {
    ProcessedConcat(event, scope + c.client, c.global);
    ProcessedConcat(event, scope, c.client);
    r, records := ApplyScopeProcessors(event, scope, true);
    if r.None? {
      return;
    }
    var more: seq<Record>;
    r, more := ApplyClientProcessors(r.value, c.client);
    records := records + more;
    if r.None? {
      return;
    }
    r, more := ApplyClientProcessors(r.value, c.global);
    records := records + more;
  }

  // ---------------------------------------------------------------------------
  // The ledger of processEvent
  // ---------------------------------------------------------------------------

  /** The spans added by all callbacks that run. */
  function AddedSpans(e: Event, sampled: bool, scope: seq<Processor>, c: Callbacks): nat {
    if !e.category.CategoryTransaction? && !e.category.CategoryMonitor? && !sampled then 0
    else
      var r := Processed(e, AllProcessors(scope, c)).0;
      Added(e, AllProcessors(scope, c)) + if r.None? then 0 else AddedBeforeSend(r.value, c)
  }

  lemma BeforeSendLedger(e: Event, c: Callbacks)
    requires IsEvent(e)
    ensures SpanCount(e) + AddedBeforeSend(e, c) ==
      SpanDiscards(BeforeSendStage(e, c).1) + SpanCountOf(BeforeSendStage(e, c).0)
    ensures EventRecords(BeforeSendStage(e, c).1) == if BeforeSendStage(e, c).0.None? then 1 else 0
  {
    if e.category.CategoryTransaction? && c.beforeSendTransaction.Some? {
      CallLedger(BeforeSend, e, c.beforeSendTransaction.value(e));
    }
  }

  /** The ledger of processEvent, for any callbacks: the spans of the event and those that callbacks
      added are the spans recorded as discarded and those handed on; and an event that is not
      handed on is recorded exactly once. */
  lemma SpanLedger(e: Event, sampled: bool, scope: seq<Processor>, c: Callbacks)
    requires IsEvent(e)
    requires forall i :: 0 <= i < |AllProcessors(scope, c)| ==> KeepsEvents(AllProcessors(scope, c)[i])
    ensures var (r, records) := ProcessedEvent(e, sampled, scope, c);
      && SpanCount(e) + AddedSpans(e, sampled, scope, c) == SpanDiscards(records) + SpanCountOf(r)
      && EventRecords(records) == if r.None? then 1 else 0
  {
    if e.category.CategoryTransaction? || e.category.CategoryMonitor? || sampled {
      ProcessedLedger(e, AllProcessors(scope, c));
      var (r, records) := Processed(e, AllProcessors(scope, c));
      if r.Some? {
        BeforeSendLedger(r.value, c);
        SpanDiscardsConcat(records, BeforeSendStage(r.value, c).1);
        EventRecordsConcat(records, BeforeSendStage(r.value, c).1);
      }
    }
  }

  // ---------------------------------------------------------------------------
  // Every processor is asked
  // ---------------------------------------------------------------------------

  /** Event after event: each processor has turned one into the next. */
  ghost predicate IsChain(es: seq<Event>, ps: seq<Processor>) {
    |es| == |ps| + 1 && forall i :: 0 <= i < |ps| ==> ps[i](es[i]) == Some(es[i + 1])
  }

  ghost predicate Passes(e: Event, ps: seq<Processor>, r: Event) {
    exists es :: IsChain(es, ps) && es[0] == e && es[|ps|] == r
  }

  lemma {:induction false} ChainProcessed(es: seq<Event>, ps: seq<Processor>)
    requires IsChain(es, ps)
    ensures Processed(es[0], ps).0 == Some(es[|ps|])
    decreases |ps|
  {
    if ps != [] {
      assert ps[0](es[0]) == Some(es[1]);
      forall i | 0 <= i < |ps| - 1
        ensures ps[1..][i](es[1..][i]) == Some(es[1..][i + 1])
      {
        assert ps[i + 1](es[i + 1]) == Some(es[i + 2]);
      }
      ChainProcessed(es[1..], ps[1..]);
    }
  }

  lemma {:induction false} ProcessedChain(e: Event, ps: seq<Processor>) returns (es: seq<Event>)
    requires Processed(e, ps).0.Some?
    ensures IsChain(es, ps) && es[0] == e && Some(es[|ps|]) == Processed(e, ps).0
    decreases |ps|
  {
    if ps == [] {
      es := [e];
    } else {
      var rest := ProcessedChain(ps[0](e).value, ps[1..]);
      es := [e] + rest;
      forall i | 0 <= i < |ps|
        ensures ps[i](es[i]) == Some(es[i + 1])
      {
        if i > 0 {
          assert ps[1..][i - 1](rest[i - 1]) == Some(rest[i]);
        }
      }
    }
  }

  /** The processors hand on `r` exactly if the event passes all of them and ends as `r`. */
  lemma ProcessedIff(e: Event, ps: seq<Processor>, r: Event)
    ensures Processed(e, ps).0 == Some(r) <==> Passes(e, ps, r)
  {
    if Processed(e, ps).0 == Some(r) {
      var es := ProcessedChain(e, ps);
    }
    if Passes(e, ps, r) {
      var es :| IsChain(es, ps) && es[0] == e && es[|ps|] == r;
      ChainProcessed(es, ps);
    }
  }

  /** So an event is handed on exactly if it passes all processors of the scope, then all of the client,
      then all global ones. */
  lemma AllStagesRun(e: Event, scope: seq<Processor>, c: Callbacks, r: Event)
    ensures Processed(e, AllProcessors(scope, c)).0 == Some(r) <==>
      exists m, n :: Passes(e, scope, m) && Passes(m, c.client, n) && Passes(n, c.global, r)
  {
    ProcessedConcat(e, scope + c.client, c.global);
    ProcessedConcat(e, scope, c.client);
    var first := Processed(e, scope).0;
    if Processed(e, AllProcessors(scope, c)).0 == Some(r) {
      var second := Processed(first.value, c.client).0;
      ProcessedIff(e, scope, first.value);
      ProcessedIff(first.value, c.client, second.value);
      ProcessedIff(second.value, c.global, r);
    }
    if m, n :| Passes(e, scope, m) && Passes(m, c.client, n) && Passes(n, c.global, r) {
      ProcessedIff(e, scope, m);
      ProcessedIff(m, c.client, n);
      ProcessedIff(n, c.global, r);
    }
  }

  // ---------------------------------------------------------------------------
  // Under which reason
  // ---------------------------------------------------------------------------

  ghost predicate AllUnder(records: seq<Record>, reason: Reason) {
    forall i :: 0 <= i < |records| ==> records[i].key.reason == reason
  }

  lemma {:induction false} ProcessedReason(e: Event, ps: seq<Processor>)
    ensures AllUnder(Processed(e, ps).1, EventProcessor)
    decreases |ps|
  {
    if ps != [] && ps[0](e).Some? {
      ProcessedReason(ps[0](e).value, ps[1..]);
    }
  }

  /** What sampling drops is recorded as such; what processors drop or remove, under EventProcessor; and what
      the callbacks drop or remove, under BeforeSend, after the former. */
  lemma ReasonsByStage(e: Event, sampled: bool, scope: seq<Processor>, c: Callbacks)
    ensures var (r, records) := ProcessedEvent(e, sampled, scope, c);
      var kept := Processed(e, AllProcessors(scope, c));
      if !sampled && !e.category.CategoryTransaction? && !e.category.CategoryMonitor? then
        r.None? && records == [Record(OutcomeKey(SampleRate, e.category), 1)]
      else
        && kept.1 <= records && AllUnder(kept.1, EventProcessor) && AllUnder(records[|kept.1|..], BeforeSend)
        && (kept.0.None? ==> r.None? && records == kept.1)
  {
    ProcessedReason(e, AllProcessors(scope, c));
  }

  /** The switch of processEvent meets an event of a type of its own that BeforeSend drops. */
  predicate DropsForeign(e: Event, sampled: bool, scope: seq<Processor>, c: Callbacks) {
    && !e.category.CategoryError? && !e.category.CategoryTransaction? && !e.category.CategoryMonitor?
    && sampled && c.beforeSend.Some?
    && var kept := Processed(e, AllProcessors(scope, c)).0;
       kept.Some? && c.beforeSend.value(kept.value).None?
  }

  /** If processors keep the type, all records of an event are about its own category or about spans,
      except exactly when BeforeSend drops what is no error, transaction or check-in. */
  lemma RecordedUnderOwnCategoryIff(e: Event, sampled: bool, scope: seq<Processor>, c: Callbacks)
    requires forall i :: 0 <= i < |AllProcessors(scope, c)| ==> KeepsType(AllProcessors(scope, c)[i])
    ensures About(ProcessedEvent(e, sampled, scope, c).1, e.category) <==> !DropsForeign(e, sampled, scope, c)
  {
    ProcessedCategory(e, AllProcessors(scope, c));
    if DropsForeign(e, sampled, scope, c) {
      var records := Processed(e, AllProcessors(scope, c)).1;
      assert ProcessedEvent(e, sampled, scope, c).1[|records|] == Record(OutcomeKey(BeforeSend, CategoryError), 1);
    }
  }

  /** In particular errors, transactions and check-ins are recorded as such. */
  lemma RecordedUnderOwnCategory(e: Event, sampled: bool, scope: seq<Processor>, c: Callbacks)
    requires e.category.CategoryError? || e.category.CategoryTransaction? || e.category.CategoryMonitor?
    requires forall i :: 0 <= i < |AllProcessors(scope, c)| ==> KeepsType(AllProcessors(scope, c)[i])
    ensures About(ProcessedEvent(e, sampled, scope, c).1, e.category)
  {
    RecordedUnderOwnCategoryIff(e, sampled, scope, c);
  }

  /** Any event of another type can be dropped so. */
  lemma BeforeSendRecordsError(e: Event)
    requires !e.category.CategoryTransaction? && !e.category.CategoryMonitor?
    ensures var c := Callbacks([], [], Some(e => None), None);
      ProcessedEvent(e, true, [], c).1 == [Record(OutcomeKey(BeforeSend, CategoryError), 1)]
  {
    var c := Callbacks([], [], Some(e => None), None);
    assert AllProcessors([], c) == [];
  }
}
