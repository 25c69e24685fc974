/** Flattening an error graph into a numbered list of exceptions (exception.go).

    The errors of a process form a finite, possibly cyclic, graph: error `n` is
    `g[n]`.  Its identity is what seenError looks at: the address of a non-nil
    pointer, or else the value and message text. */
module Exceptions {
  import opened Wrappers

  datatype Identity = Pointer(address: nat) | Message(key: string)

  /** What an error unwraps to: the first of the three interfaces it implements. */
  datatype Shape =
    | Group(errors: seq<Option<nat>>)
    | Wrapper(inner: Option<nat>)
    | Causer(cause: Option<nat>)
    | Plain

  datatype ErrorNode = ErrorNode(identity: Identity, shape: Shape)

  type Graph = seq<ErrorNode>

  datatype Source = NoSource | ErrorsIndex(index: nat) | UnwrapSource | CauseSource

  datatype MechanismType = Generic | Chained

  datatype Mechanism = Mechanism(
    kind: MechanismType, exceptionID: nat, parentID: Option<nat>, source: Source, isGroup: bool)

  /** `error` stands for the value, type and stack trace taken from that error. */
  datatype Exception = Exception(error: nat, mechanism: Option<Mechanism>)

  datatype Edge = Edge(child: nat, source: Source)

  // ---------------------------------------------------------------------------
  // The graph
  // ---------------------------------------------------------------------------

  function GroupEdges(errors: seq<Option<nat>>, i: nat): (es: seq<Edge>)
    requires i <= |errors|
    decreases |errors| - i
  {
    if i == |errors| then []
    else
      (if errors[i].Some? then [Edge(errors[i].value, ErrorsIndex(i))] else []) + GroupEdges(errors, i + 1)
  }

  function InnerEdges(inner: Option<nat>, source: Source): seq<Edge> {
    if inner.Some? then [Edge(inner.value, source)] else []
  }

  function Edges(shape: Shape): seq<Edge> {
    match shape
    case Group(errors) => GroupEdges(errors, 0)
    case Wrapper(inner) => InnerEdges(inner, UnwrapSource)
    case Causer(cause) => InnerEdges(cause, CauseSource)
    case Plain => []
  }

  /** An error of this shape unwraps to error `b`, which is found at `source`. */
  predicate Unwraps(shape: Shape, b: nat, source: Source) {
    match shape
    case Group(errors) => source.ErrorsIndex? && source.index < |errors| && errors[source.index] == Some(b)
    case Wrapper(inner) => source.UnwrapSource? && inner == Some(b)
    case Causer(cause) => source.CauseSource? && cause == Some(b)
    case Plain => false
  }

  lemma {:induction false} GroupEdgesExact(errors: seq<Option<nat>>, i: nat, b: nat, source: Source)
    requires i <= |errors|
    ensures Edge(b, source) in GroupEdges(errors, i)
       <==> source.ErrorsIndex? && i <= source.index < |errors| && errors[source.index] == Some(b)
    decreases |errors| - i
  {
    if i < |errors| {
      GroupEdgesExact(errors, i + 1, b, source);
    }
  }

  /** The traversal follows exactly what an error unwraps to. */
  lemma EdgesExact(shape: Shape, b: nat, source: Source)
    ensures Edge(b, source) in Edges(shape) <==> Unwraps(shape, b, source)
  {
    if shape.Group? {
      GroupEdgesExact(shape.errors, 0, b, source);
    }
  }

  ghost predicate EdgesIn(g: Graph, es: seq<Edge>) {
    forall e <- es :: e.child < |g|
  }

  ghost predicate WellFormed(g: Graph) {
    forall n :: 0 <= n < |g| ==> EdgesIn(g, Edges(g[n].shape))
  }

  ghost function Identities(g: Graph): set<Identity> {
    set n | 0 <= n < |g| :: g[n].identity
  }

  /** How many identities the search has not met yet: what makes it terminate on cycles. */
  ghost function Unseen(g: Graph, seen: set<Identity>): nat {
    |Identities(g) - seen|
  }

  lemma SubsetSize<T>(a: set<T>, b: set<T>)
    requires a <= b
    ensures |a| <= |b| && (a != b ==> |a| < |b|)
  {
    assert b == a + (b - a);
  }

  lemma UnseenShrinks(g: Graph, seen: set<Identity>, more: set<Identity>)
    requires seen <= more
    ensures Unseen(g, more) <= Unseen(g, seen)
  {
    SubsetSize(Identities(g) - more, Identities(g) - seen);
  }

  lemma UnseenDecreases(g: Graph, seen: set<Identity>, n: nat)
    requires n < |g| && g[n].identity !in seen
    ensures Unseen(g, seen + {g[n].identity}) < Unseen(g, seen)
  {
    SubsetSize(Identities(g) - (seen + {g[n].identity}), Identities(g) - seen);
    assert g[n].identity in Identities(g) - seen;
  }

  // ---------------------------------------------------------------------------
  // The search as a function
  // ---------------------------------------------------------------------------

  datatype Progress = Progress(seen: set<Identity>, list: seq<Exception>)

  function Entry(g: Graph, n: nat, id: nat, parent: Option<nat>, source: Source): Exception
    requires n < |g|
  {
    Exception(n, Some(Mechanism(
      if parent.None? then Generic else Chained, id, parent,
      if parent.None? then NoSource else source, g[n].shape.Group?)))
  }

  ghost function Push(g: Graph, n: nat, parent: Option<nat>, source: Source, st: Progress): Progress
    requires n < |g|
  {
    Progress(st.seen + {g[n].identity}, st.list + [Entry(g, n, |st.list|, parent, source)])
  }

  ghost function Dfs(g: Graph, e: Edge, parent: Option<nat>, st: Progress, limit: int, depth: nat): (r: Progress)
    requires WellFormed(g) && e.child < |g|
    ensures st.seen <= r.seen && st.list <= r.list
    decreases Unseen(g, st.seen), 0
  {
    var n := e.child;
    if g[n].identity in st.seen then st
    else
      var st1 := Push(g, n, parent, e.source, st);
      if 0 <= limit <= depth then st1
      else
        UnseenDecreases(g, st.seen, n);
        DfsEdges(g, Edges(g[n].shape), |st.list|, st1, limit, depth + 1)
  }

  ghost function DfsEdges(g: Graph, es: seq<Edge>, parent: nat, st: Progress, limit: int, depth: nat): (r: Progress)
    requires WellFormed(g) && EdgesIn(g, es)
    ensures st.seen <= r.seen && st.list <= r.list
    decreases Unseen(g, st.seen), 1 + |es|
  {
    if es == [] then st
    else
      var st1 := Dfs(g, es[0], Some(parent), st, limit, depth);
      UnseenShrinks(g, st.seen, st1.seen);
      DfsEdges(g, es[1..], parent, st1, limit, depth)
  }

  // ---------------------------------------------------------------------------
  // The search as the program runs it
  // ---------------------------------------------------------------------------

  class Visited {
    var ptrs: set<nat>
    var msgs: set<string>

    constructor ()
      ensures Seen() == {}
    {
      ptrs, msgs := {}, {};
    }

    ghost function Seen(): set<Identity>
      reads this
    {
      (set p | p in ptrs :: Pointer(p)) + (set m | m in msgs :: Message(m))
    }

    method SeenError(identity: Identity) returns (seen: bool)
      modifies this
      ensures seen == (identity in old(Seen()))
      ensures Seen() == old(Seen()) + {identity}
    {
      match identity {
        case Pointer(p) =>
          if p in ptrs {
            return true;
          }
          ptrs := ptrs + {p};
          assert (set q | q in ptrs :: Pointer(q)) == (set q | q in old(ptrs) :: Pointer(q)) + {Pointer(p)};
        case Message(m) =>
          if m in msgs {
            return true;
          }
          msgs := msgs + {m};
          assert (set q | q in msgs :: Message(q)) == (set q | q in old(msgs) :: Message(q)) + {Message(m)};
      }
      return false;
    }
  }

  /** The slice that the recursion appends to. */
  class ExceptionList {
    var exceptions: seq<Exception>

    constructor ()
      ensures exceptions == []
    {
      exceptions := [];
    }
  }

  ghost function ProgressOf(list: ExceptionList, visited: Visited): Progress
    reads list, visited
  {
    Progress(visited.Seen(), list.exceptions)
  }

  method ConvertErrorDFS(g: Graph, err: Option<nat>, list: ExceptionList, parentID: Option<nat>, source: Source,
                         visited: Visited, maxErrorDepth: int, currentDepth: nat)
    requires WellFormed(g) && (err.Some? ==> err.value < |g|)
    modifies list, visited
    ensures ProgressOf(list, visited) == if err.None? then old(ProgressOf(list, visited))
              else Dfs(g, Edge(err.value, source), parentID, old(ProgressOf(list, visited)), maxErrorDepth, currentDepth)
    decreases Unseen(g, visited.Seen()), 0
  {
    if err.None? {
      return;
    }
    var n := err.value;
    ghost var before := ProgressOf(list, visited);
    var seen := visited.SeenError(g[n].identity);
    if seen {
      assert before.seen + {g[n].identity} == before.seen;
      return;
    }
    var currentID := |list.exceptions|;
    var mechanism := if parentID.None? then Mechanism(Generic, currentID, None, NoSource, g[n].shape.Group?)
                     else Mechanism(Chained, currentID, parentID, source, g[n].shape.Group?);
    list.exceptions := list.exceptions + [Exception(n, Some(mechanism))];
    assert ProgressOf(list, visited) == Push(g, n, parentID, source, before);
    UnseenDecreases(g, before.seen, n);
    if maxErrorDepth >= 0 && currentDepth >= maxErrorDepth {
      return;
    }
    ConvertUnwrapped(g, g[n].shape, list, currentID, visited, maxErrorDepth, currentDepth + 1);
  }

  /** The type switch at the end of convertErrorDFS. */
  method ConvertUnwrapped(g: Graph, shape: Shape, list: ExceptionList, currentID: nat,
                          visited: Visited, maxErrorDepth: int, childDepth: nat)
    requires WellFormed(g) && EdgesIn(g, Edges(shape))
    modifies list, visited
    ensures ProgressOf(list, visited)
            == DfsEdges(g, Edges(shape), currentID, old(ProgressOf(list, visited)), maxErrorDepth, childDepth)
    decreases Unseen(g, visited.Seen()), 2
  {
    match shape {
      case Group(errors) =>
        ConvertGroup(g, errors, list, currentID, visited, maxErrorDepth, childDepth);
      case Wrapper(inner) =>
        if inner.Some? {
          assert Edge(inner.value, UnwrapSource) in Edges(shape);
          ConvertErrorDFS(g, inner, list, Some(currentID), UnwrapSource, visited, maxErrorDepth, childDepth);
        }
      case Causer(cause) =>
        if cause.Some? {
          assert Edge(cause.value, CauseSource) in Edges(shape);
          ConvertErrorDFS(g, cause, list, Some(currentID), CauseSource, visited, maxErrorDepth, childDepth);
        }
      case Plain =>
    }
  }

  method ConvertGroup(g: Graph, errors: seq<Option<nat>>, list: ExceptionList, currentID: nat,
                      visited: Visited, maxErrorDepth: int, childDepth: nat)
    requires WellFormed(g) && EdgesIn(g, GroupEdges(errors, 0))
    modifies list, visited
    ensures ProgressOf(list, visited)
            == DfsEdges(g, GroupEdges(errors, 0), currentID, old(ProgressOf(list, visited)), maxErrorDepth, childDepth)
    decreases Unseen(g, visited.Seen()), 1
  {
    ghost var before := ProgressOf(list, visited);
    for i := 0 to |errors|
      invariant EdgesIn(g, GroupEdges(errors, i))
      invariant before.seen <= visited.Seen()
      invariant DfsEdges(g, GroupEdges(errors, i), currentID, ProgressOf(list, visited), maxErrorDepth, childDepth)
                == DfsEdges(g, GroupEdges(errors, 0), currentID, before, maxErrorDepth, childDepth)
    {
      ghost var es := GroupEdges(errors, i);
      UnseenShrinks(g, before.seen, visited.Seen());
      if errors[i].Some? {
        assert es[0] == Edge(errors[i].value, ErrorsIndex(i)) && es[1..] == GroupEdges(errors, i + 1);
        assert es[0] in es && forall e <- es[1..] :: e in es;
        ConvertErrorDFS(g, errors[i], list, Some(currentID), ErrorsIndex(i), visited, maxErrorDepth, childDepth);
      } else {
        assert es == GroupEdges(errors, i + 1);
      }
    }
  }

  // ---------------------------------------------------------------------------
  // The list is a numbered tree, in preorder
  // ---------------------------------------------------------------------------

  function ParentOf(x: Exception): Option<nat> {
    if x.mechanism.Some? then x.mechanism.value.parentID else None
  }

  /** Following parents upwards from entry `i` meets entry `a`. */
  predicate IsAncestorOrSelf(list: seq<Exception>, a: nat, i: nat)
    requires i < |list|
    decreases i
  {
    a == i ||
    (var p := ParentOf(list[i]); p.Some? && p.value < i && IsAncestorOrSelf(list, a, p.value))
  }

  function DepthOf(list: seq<Exception>, i: nat): nat
    requires i < |list|
    decreases i
  {
    var p := ParentOf(list[i]);
    if p.Some? && p.value < i then 1 + DepthOf(list, p.value) else 0
  }

  lemma {:induction false} PrefixKeeps(list: seq<Exception>, more: seq<Exception>, a: nat, i: nat)
    requires list <= more && i < |list|
    ensures IsAncestorOrSelf(more, a, i) == IsAncestorOrSelf(list, a, i)
    ensures DepthOf(more, i) == DepthOf(list, i)
    decreases i
  {
    var p := ParentOf(list[i]);
    if p.Some? && p.value < i {
      PrefixKeeps(list, more, a, p.value);
    }
  }

  /** Entry `i` names a real parent: an earlier entry whose error unwraps, at the recorded source, to this error. */
  ghost predicate HasRealParent(g: Graph, list: seq<Exception>, i: nat)
    requires i < |list|
  {
    list[i].mechanism.Some? &&
    var m := list[i].mechanism.value;
    && m.parentID.Some? && m.parentID.value < i
    && list[m.parentID.value].error < |g|
    && Unwraps(g[list[m.parentID.value].error].shape, list[i].error, m.source)
  }

  /** Entry `i` carries its own position as id and is placed right in the tree. */
  ghost predicate EntryOk(g: Graph, list: seq<Exception>, i: nat, limit: int)
    requires i < |list|
  {
    && list[i].error < |g|
    && list[i].mechanism.Some? && list[i].mechanism.value.exceptionID == i
    && list[i].mechanism.value.isGroup == g[list[i].error].shape.Group?
    && (list[i].mechanism.value.kind.Generic? <==> i == 0)
    && (if i == 0 then ParentOf(list[0]) == None
        else HasRealParent(g, list, i) && IsAncestorOrSelf(list, ParentOf(list[i]).value, i - 1))
    && (limit >= 0 ==> DepthOf(list, i) <= limit)
  }

  ghost predicate TreeOk(g: Graph, list: seq<Exception>, limit: int) {
    forall i :: 0 <= i < |list| ==> EntryOk(g, list, i, limit)
  }

  /** Where the next entry may be put: below `parent`, on the path to the last entry. */
  ghost predicate Below(g: Graph, list: seq<Exception>, parent: nat, limit: int, depth: nat) {
    && parent < |list| && list[parent].error < |g|
    && IsAncestorOrSelf(list, parent, |list| - 1)
    && depth == DepthOf(list, parent) + 1
    && (limit >= 0 ==> depth <= limit)
  }

  lemma PushTree(g: Graph, n: nat, parent: Option<nat>, source: Source, st: Progress, limit: int, depth: nat)
    requires WellFormed(g) && n < |g| && TreeOk(g, st.list, limit)
    requires if parent.None? then st.list == [] && depth == 0
             else Below(g, st.list, parent.value, limit, depth)
                  && Edge(n, source) in Edges(g[st.list[parent.value].error].shape)
    ensures TreeOk(g, Push(g, n, parent, source, st).list, limit)
    ensures DepthOf(Push(g, n, parent, source, st).list, |st.list|) == depth
    ensures parent.Some? ==> IsAncestorOrSelf(Push(g, n, parent, source, st).list, parent.value, |st.list|)
  {
    var list := Push(g, n, parent, source, st).list;
    var k := |st.list|;
    assert list[k] == Entry(g, n, k, parent, source);
    if parent.Some? {
      PrefixKeeps(st.list, list, parent.value, parent.value);
      PrefixKeeps(st.list, list, parent.value, k - 1);
      assert IsAncestorOrSelf(list, parent.value, parent.value);
      EdgesExact(g[st.list[parent.value].error].shape, n, source);
    }
    assert EntryOk(g, list, k, limit);
    forall i | 0 <= i < k
      ensures EntryOk(g, list, i, limit)
    {
      assert EntryOk(g, st.list, i, limit);
      PrefixKeeps(st.list, list, i, i);
      if i > 0 {
        PrefixKeeps(st.list, list, ParentOf(list[i]).value, i - 1);
      }
    }
  }

  lemma {:induction false} AncestorTrans(list: seq<Exception>, a: nat, b: nat, i: nat)
    requires i < |list| && b < |list| && IsAncestorOrSelf(list, b, i)
    ensures IsAncestorOrSelf(list, a, b) ==> IsAncestorOrSelf(list, a, i)
    decreases i
  {
    if b != i {
      AncestorTrans(list, a, b, ParentOf(list[i]).value);
    }
  }

  /** The parent of a finished subtree is still on the path to the last entry. */
  lemma StaysBelow(g: Graph, list: seq<Exception>, more: seq<Exception>, parent: nat, limit: int, depth: nat)
    requires Below(g, list, parent, limit, depth) && list <= more && |list| < |more|
    requires IsAncestorOrSelf(more, parent, |list|) && IsAncestorOrSelf(more, |list|, |more| - 1)
    ensures Below(g, more, parent, limit, depth)
  {
    PrefixKeeps(list, more, parent, parent);
    AncestorTrans(more, parent, |list|, |more| - 1);
  }

  lemma SubtreeStaysBelow(g: Graph, st: Progress, st1: Progress, more: seq<Exception>, p: nat, limit: int, depth: nat)
    requires Below(g, st.list, p, limit, depth) && |st.list| < |st1.list|
    requires st.list <= more && st1.list <= more && IsAncestorOrSelf(st1.list, p, |st.list|)
    requires IsSubtree(g, st.list, more, limit)
    ensures Below(g, more, p, limit, depth)
  {
    PrefixKeeps(st1.list, more, p, |st.list|);
    StaysBelow(g, st.list, more, p, limit, depth);
  }

  /** The precondition of exploring edge `e` below `parent`. */
  ghost predicate MayAttach(g: Graph, list: seq<Exception>, e: Edge, parent: Option<nat>, limit: int, depth: nat) {
    if parent.None? then list == [] && depth == 0
    else Below(g, list, parent.value, limit, depth) && e in Edges(g[list[parent.value].error].shape)
  }

  lemma {:induction false} DfsTree(g: Graph, e: Edge, parent: Option<nat>, st: Progress, limit: int, depth: nat)
    requires WellFormed(g) && e.child < |g| && TreeOk(g, st.list, limit)
    requires MayAttach(g, st.list, e, parent, limit, depth)
    ensures TreeOk(g, Dfs(g, e, parent, st, limit, depth).list, limit)
    ensures parent.Some? ==> Below(g, Dfs(g, e, parent, st, limit, depth).list, parent.value, limit, depth)
    decreases Unseen(g, st.seen), 0
  {
    if g[e.child].identity !in st.seen {
      PushTree(g, e.child, parent, e.source, st, limit, depth);
      UnseenDecreases(g, st.seen, e.child);
      SubtreeTree(g, e, parent, st, limit, depth);
      if parent.Some? {
        SubtreeStaysBelow(g, st, Push(g, e.child, parent, e.source, st), Dfs(g, e, parent, st, limit, depth).list,
          parent.value, limit, depth);
      }
    }
  }

  lemma PushBelow(g: Graph, e: Edge, parent: Option<nat>, st: Progress, limit: int, depth: nat)
    requires e.child < |g| && !(0 <= limit <= depth)
    requires DepthOf(Push(g, e.child, parent, e.source, st).list, |st.list|) == depth
    ensures Below(g, Push(g, e.child, parent, e.source, st).list, |st.list|, limit, depth + 1)
    ensures Push(g, e.child, parent, e.source, st).list[|st.list|].error == e.child
  {
  }

  lemma BelowLast(g: Graph, list: seq<Exception>, parent: nat, limit: int, depth: nat)
    requires Below(g, list, parent, limit, depth)
    ensures IsAncestorOrSelf(list, parent, |list| - 1)
  {
  }

  /** The subtree of a new entry: it starts with the entry and ends below it. */
  ghost predicate IsSubtree(g: Graph, before: seq<Exception>, list: seq<Exception>, limit: int) {
    TreeOk(g, list, limit) && |before| < |list| && IsAncestorOrSelf(list, |before|, |list| - 1)
  }

  lemma {:induction false} SubtreeTree(g: Graph, e: Edge, parent: Option<nat>, st: Progress, limit: int, depth: nat)
    requires WellFormed(g) && e.child < |g| && g[e.child].identity !in st.seen
    requires TreeOk(g, Push(g, e.child, parent, e.source, st).list, limit)
    requires DepthOf(Push(g, e.child, parent, e.source, st).list, |st.list|) == depth
    ensures Push(g, e.child, parent, e.source, st).list <= Dfs(g, e, parent, st, limit, depth).list
    ensures IsSubtree(g, st.list, Dfs(g, e, parent, st, limit, depth).list, limit)
    decreases Unseen(g, st.seen + {g[e.child].identity}), 3 + |Edges(g[e.child].shape)|
  {
    var st1 := Push(g, e.child, parent, e.source, st);
    if !(0 <= limit <= depth) {
      UnseenDecreases(g, st.seen, e.child);
      PushBelow(g, e, parent, st, limit, depth);
      DfsEdgesTree(g, Edges(g[e.child].shape), |st.list|, st1, limit, depth + 1);
      var list := DfsEdges(g, Edges(g[e.child].shape), |st.list|, st1, limit, depth + 1).list;
      BelowLast(g, list, |st.list|, limit, depth + 1);
      assert Dfs(g, e, parent, st, limit, depth).list == list;
    }
  }

  lemma {:induction false} DfsEdgesTree(g: Graph, es: seq<Edge>, parent: nat, st: Progress, limit: int, depth: nat)
    requires WellFormed(g) && EdgesIn(g, es) && TreeOk(g, st.list, limit)
    requires Below(g, st.list, parent, limit, depth)
    requires forall e <- es :: e in Edges(g[st.list[parent].error].shape)
    ensures TreeOk(g, DfsEdges(g, es, parent, st, limit, depth).list, limit)
    ensures Below(g, DfsEdges(g, es, parent, st, limit, depth).list, parent, limit, depth)
    decreases Unseen(g, st.seen), 1 + |es|
  {
    if es != [] {
      var st1 := Dfs(g, es[0], Some(parent), st, limit, depth);
      DfsTree(g, es[0], Some(parent), st, limit, depth);
      UnseenShrinks(g, st.seen, st1.seen);
      assert forall e <- es[1..] :: e in es;
      DfsEdgesTree(g, es[1..], parent, st1, limit, depth);
    }
  }

  // ---------------------------------------------------------------------------
  // Every reachable error is listed, each identity once
  // ---------------------------------------------------------------------------

  ghost predicate Listed(g: Graph, list: seq<Exception>, id: Identity) {
    exists i :: 0 <= i < |list| && list[i].error < |g| && g[list[i].error].identity == id
  }

  /** What has been seen is exactly what is listed, and nothing is listed twice. */
  ghost predicate SeenOk(g: Graph, st: Progress) {
    && (forall i :: 0 <= i < |st.list| ==> st.list[i].error < |g| && g[st.list[i].error].identity in st.seen)
    && (forall id <- st.seen :: Listed(g, st.list, id))
    && (forall i, j :: 0 <= i < j < |st.list| && st.list[i].error < |g| && st.list[j].error < |g| ==>
          g[st.list[i].error].identity != g[st.list[j].error].identity)
  }

  lemma PushSeen(g: Graph, n: nat, parent: Option<nat>, source: Source, st: Progress)
    requires n < |g| && g[n].identity !in st.seen && SeenOk(g, st)
    ensures SeenOk(g, Push(g, n, parent, source, st))
  {
    var r := Push(g, n, parent, source, st);
    assert r.list[|st.list|].error == n;
    forall id | id in r.seen
      ensures Listed(g, r.list, id)
    {
      if id in st.seen {
        var i :| 0 <= i < |st.list| && st.list[i].error < |g| && g[st.list[i].error].identity == id;
        assert r.list[i] == st.list[i];
      }
    }
  }

  lemma {:induction false} DfsSeen(g: Graph, e: Edge, parent: Option<nat>, st: Progress, limit: int, depth: nat)
    requires WellFormed(g) && e.child < |g| && SeenOk(g, st)
    ensures SeenOk(g, Dfs(g, e, parent, st, limit, depth))
    decreases Unseen(g, st.seen), 0
  {
    if g[e.child].identity !in st.seen {
      PushSeen(g, e.child, parent, e.source, st);
      if !(0 <= limit <= depth) {
        UnseenDecreases(g, st.seen, e.child);
        DfsEdgesSeen(g, Edges(g[e.child].shape), |st.list|, Push(g, e.child, parent, e.source, st), limit, depth + 1);
      }
    }
  }

  lemma {:induction false} DfsEdgesSeen(g: Graph, es: seq<Edge>, parent: nat, st: Progress, limit: int, depth: nat)
    requires WellFormed(g) && EdgesIn(g, es) && SeenOk(g, st)
    ensures SeenOk(g, DfsEdges(g, es, parent, st, limit, depth))
    decreases Unseen(g, st.seen), 1 + |es|
  {
    if es != [] {
      var st1 := Dfs(g, es[0], Some(parent), st, limit, depth);
      DfsSeen(g, es[0], Some(parent), st, limit, depth);
      UnseenShrinks(g, st.seen, st1.seen);
      assert EdgesIn(g, es[1..]);
      DfsEdgesSeen(g, es[1..], parent, st1, limit, depth);
    }
  }

  lemma {:induction false} DfsEdgesMark(g: Graph, es: seq<Edge>, parent: nat, st: Progress, limit: int, depth: nat)
    requires WellFormed(g) && EdgesIn(g, es)
    ensures forall e <- es :: g[e.child].identity in DfsEdges(g, es, parent, st, limit, depth).seen
    decreases |es|
  {
    if es != [] {
      var st1 := Dfs(g, es[0], Some(parent), st, limit, depth);
      assert EdgesIn(g, es[1..]);
      DfsEdgesMark(g, es[1..], parent, st1, limit, depth);
      forall e <- es
        ensures g[e.child].identity in DfsEdges(g, es, parent, st, limit, depth).seen
      {
        assert e == es[0] || e in es[1..];
        assert g[es[0].child].identity in st1.seen;
      }
    }
  }

  ghost predicate ChildrenSeen(g: Graph, n: nat, seen: set<Identity>)
    requires n < |g|
  {
    forall e <- Edges(g[n].shape) :: e.child < |g| && g[e.child].identity in seen
  }

  /** Whatever entries `from`.. unwrap to has been seen. */
  ghost predicate ClosedFrom(g: Graph, from: nat, st: Progress) {
    forall i :: from <= i < |st.list| && st.list[i].error < |g| ==> ChildrenSeen(g, st.list[i].error, st.seen)
  }

  lemma {:induction false} DfsClosed(g: Graph, e: Edge, parent: Option<nat>, st: Progress, limit: int, depth: nat)
    requires WellFormed(g) && e.child < |g| && limit < 0
    ensures ClosedFrom(g, |st.list|, Dfs(g, e, parent, st, limit, depth))
    decreases Unseen(g, st.seen), 0
  {
    if g[e.child].identity !in st.seen {
      var es, k := Edges(g[e.child].shape), |st.list|;
      var st1 := Push(g, e.child, parent, e.source, st);
      UnseenDecreases(g, st.seen, e.child);
      DfsEdgesMark(g, es, k, st1, limit, depth + 1);
      DfsEdgesClosed(g, es, k, st1, limit, depth + 1);
      PushClosed(g, e.child, k, DfsEdges(g, es, k, st1, limit, depth + 1));
      assert Dfs(g, e, parent, st, limit, depth) == DfsEdges(g, es, k, st1, limit, depth + 1);
    }
  }

  lemma PushClosed(g: Graph, n: nat, k: nat, r: Progress)
    requires n < |g| && k < |r.list| && r.list[k].error == n
    requires ChildrenSeen(g, n, r.seen) && ClosedFrom(g, k + 1, r)
    ensures ClosedFrom(g, k, r)
  {
  }

  lemma {:induction false} DfsEdgesClosed(g: Graph, es: seq<Edge>, parent: nat, st: Progress, limit: int, depth: nat)
    requires WellFormed(g) && EdgesIn(g, es) && limit < 0
    ensures ClosedFrom(g, |st.list|, DfsEdges(g, es, parent, st, limit, depth))
    decreases Unseen(g, st.seen), 1 + |es|
  {
    if es != [] {
      var st1 := Dfs(g, es[0], Some(parent), st, limit, depth);
      DfsClosed(g, es[0], Some(parent), st, limit, depth);
      UnseenShrinks(g, st.seen, st1.seen);
      assert EdgesIn(g, es[1..]);
      DfsEdgesClosed(g, es[1..], parent, st1, limit, depth);
      ClosedExtends(g, |st.list|, st1, DfsEdges(g, es[1..], parent, st1, limit, depth));
    }
  }

  lemma ClosedExtends(g: Graph, k: nat, st: Progress, r: Progress)
    requires ClosedFrom(g, k, st) && ClosedFrom(g, |st.list|, r) && st.list <= r.list && st.seen <= r.seen
    ensures ClosedFrom(g, k, r)
  {
    forall i | k <= i < |r.list| && r.list[i].error < |g|
      ensures ChildrenSeen(g, r.list[i].error, r.seen)
    {
      if i < |st.list| {
        assert ChildrenSeen(g, st.list[i].error, st.seen);
      }
    }
  }

  /** A chain of unwrappings. */
  ghost predicate IsPath(g: Graph, path: seq<nat>) {
    && path != []
    && (forall k :: 0 <= k < |path| ==> path[k] < |g|)
    && (forall k :: 0 < k < |path| ==> HasEdge(g, path[k - 1], path[k]))
  }

  ghost predicate HasEdge(g: Graph, a: nat, b: nat)
    requires a < |g|
  {
    exists source :: Unwraps(g[a].shape, b, source)
  }

  ghost predicate Reaches(g: Graph, a: nat, b: nat) {
    exists path :: IsPath(g, path) && path[0] == a && path[|path| - 1] == b
  }

  ghost predicate HasChildLike(g: Graph, n: nat, id: Identity)
    requires n < |g|
  {
    exists c: nat, source :: Unwraps(g[n].shape, c, source) && c < |g| && g[c].identity == id
  }

  /** Errors that seenError cannot tell apart unwrap to errors it cannot tell apart. */
  ghost predicate ChildrenByIdentity(g: Graph) {
    forall a, b, c: nat, source ::
      0 <= a < |g| && 0 <= b < |g| && g[a].identity == g[b].identity && Unwraps(g[a].shape, c, source) ==>
        c < |g| && HasChildLike(g, b, g[c].identity)
  }

  /** The exceptions for error `root`, before the list is reversed. */
  ghost function Flatten(g: Graph, root: nat, limit: int): seq<Exception>
    requires WellFormed(g) && root < |g|
  {
    Dfs(g, Edge(root, NoSource), None, Progress({}, []), limit, 0).list
  }

  lemma EdgeListed(g: Graph, a: nat, b: nat, st: Progress)
    requires ChildrenByIdentity(g) && ClosedFrom(g, 0, st)
    requires a < |g| && b < |g| && HasEdge(g, a, b) && Listed(g, st.list, g[a].identity)
    ensures g[b].identity in st.seen
  {
    var source :| Unwraps(g[a].shape, b, source);
    var i :| 0 <= i < |st.list| && st.list[i].error < |g| && g[st.list[i].error].identity == g[a].identity;
    assert HasChildLike(g, st.list[i].error, g[b].identity);
    var c: nat, at :| Unwraps(g[st.list[i].error].shape, c, at) && c < |g| && g[c].identity == g[b].identity;
    EdgesExact(g[st.list[i].error].shape, c, at);
    assert ChildrenSeen(g, st.list[i].error, st.seen);
  }

  ghost predicate EdgesStaySeen(g: Graph, seen: set<Identity>) {
    forall a, b :: 0 <= a < |g| && 0 <= b < |g| && HasEdge(g, a, b) && g[a].identity in seen ==> g[b].identity in seen
  }

  lemma {:induction false} PathSeen(g: Graph, path: seq<nat>, seen: set<Identity>)
    requires EdgesStaySeen(g, seen) && IsPath(g, path) && g[path[0]].identity in seen
    ensures g[path[|path| - 1]].identity in seen
    decreases |path|
  {
    var m := |path| - 1;
    if m > 0 {
      assert IsPath(g, path[..m]);
      PathSeen(g, path[..m], seen);
      assert HasEdge(g, path[m - 1], path[m]);
    }
  }

  /** The search without a limit, as progress from nothing. */
  ghost function Unlimited(g: Graph, root: nat): Progress
    requires WellFormed(g) && root < |g|
  {
    Dfs(g, Edge(root, NoSource), None, Progress({}, []), -1, 0)
  }

  lemma UnlimitedClosed(g: Graph, root: nat, limit: int)
    requires WellFormed(g) && root < |g| && (limit < 0 || limit + 1 >= |Identities(g)|)
    ensures SeenOk(g, Unlimited(g, root)) && ClosedFrom(g, 0, Unlimited(g, root))
    ensures g[root].identity in Unlimited(g, root).seen
    ensures Flatten(g, root, limit) == Unlimited(g, root).list
  {
    var st := Progress({}, []);
    DfsSeen(g, Edge(root, NoSource), None, st, -1, 0);
    DfsClosed(g, Edge(root, NoSource), None, st, -1, 0);
    if limit >= 0 {
      assert Identities(g) - st.seen == Identities(g);
      DfsLimitSlack(g, Edge(root, NoSource), None, st, limit, 0);
    } else {
      DfsNegativeLimit(g, Edge(root, NoSource), None, st, limit, 0);
    }
  }

  /** Without a depth limit, or with one that a chain of all identities does not exceed, every
      error that can be reached by unwrapping is listed, whatever cycles the graph has. */
  lemma FlattenComplete(g: Graph, root: nat, limit: int, n: nat)
    requires WellFormed(g) && root < |g| && n < |g|
    requires limit < 0 || limit + 1 >= |Identities(g)|
    requires ChildrenByIdentity(g) && Reaches(g, root, n)
    ensures Listed(g, Flatten(g, root, limit), g[n].identity)
  {
    UnlimitedClosed(g, root, limit);
    var st := Unlimited(g, root);
    forall a, b | 0 <= a < |g| && 0 <= b < |g| && HasEdge(g, a, b) && g[a].identity in st.seen
      ensures g[b].identity in st.seen
    {
      assert Listed(g, st.list, g[a].identity);
      EdgeListed(g, a, b, st);
    }
    var path :| IsPath(g, path) && path[0] == root && path[|path| - 1] == n;
    PathSeen(g, path, st.seen);
  }

  lemma FlattenNoDuplicates(g: Graph, root: nat, limit: int, i: nat, j: nat)
    requires WellFormed(g) && root < |g| && i < j < |Flatten(g, root, limit)|
    ensures Flatten(g, root, limit)[i].error < |g| && Flatten(g, root, limit)[j].error < |g|
    ensures g[Flatten(g, root, limit)[i].error].identity != g[Flatten(g, root, limit)[j].error].identity
  {
    DfsSeen(g, Edge(root, NoSource), None, Progress({}, []), limit, 0);
  }

  /** All negative limits mean the same. */
  lemma {:induction false} DfsNegativeLimit(g: Graph, e: Edge, parent: Option<nat>, st: Progress, limit: int, depth: nat)
    requires WellFormed(g) && e.child < |g| && limit < 0
    ensures Dfs(g, e, parent, st, limit, depth) == Dfs(g, e, parent, st, -1, depth)
    decreases Unseen(g, st.seen), 0
  {
    if g[e.child].identity !in st.seen {
      UnseenDecreases(g, st.seen, e.child);
      DfsEdgesNegativeLimit(g, Edges(g[e.child].shape), |st.list|, Push(g, e.child, parent, e.source, st), limit, depth + 1);
    }
  }

  lemma {:induction false} DfsEdgesNegativeLimit(g: Graph, es: seq<Edge>, parent: nat, st: Progress, limit: int, depth: nat)
    requires WellFormed(g) && EdgesIn(g, es) && limit < 0
    ensures DfsEdges(g, es, parent, st, limit, depth) == DfsEdges(g, es, parent, st, -1, depth)
    decreases Unseen(g, st.seen), 1 + |es|
  {
    if es != [] {
      DfsNegativeLimit(g, es[0], Some(parent), st, limit, depth);
      var st1 := Dfs(g, es[0], Some(parent), st, limit, depth);
      UnseenShrinks(g, st.seen, st1.seen);
      assert EdgesIn(g, es[1..]);
      DfsEdgesNegativeLimit(g, es[1..], parent, st1, limit, depth);
    }
  }

  lemma {:induction false} DfsEdgesAllSeen(g: Graph, es: seq<Edge>, parent: nat, st: Progress, limit: int, depth: nat)
    requires WellFormed(g) && EdgesIn(g, es) && Unseen(g, st.seen) == 0
    ensures DfsEdges(g, es, parent, st, limit, depth) == st
    decreases |es|
  {
    if es != [] {
      assert g[es[0].child].identity in Identities(g) && g[es[0].child].identity !in Identities(g) - st.seen;
      assert EdgesIn(g, es[1..]);
      DfsEdgesAllSeen(g, es[1..], parent, st, limit, depth);
    }
  }

  /** A limit that leaves room for all unseen identities but one cuts nothing off. */
  lemma {:induction false} DfsLimitSlack(g: Graph, e: Edge, parent: Option<nat>, st: Progress, limit: int, depth: nat)
    requires WellFormed(g) && e.child < |g| && limit >= 0 && limit + 1 >= depth + Unseen(g, st.seen)
    ensures Dfs(g, e, parent, st, limit, depth) == Dfs(g, e, parent, st, -1, depth)
    decreases Unseen(g, st.seen), 0
  {
    if g[e.child].identity !in st.seen {
      var st1 := Push(g, e.child, parent, e.source, st);
      UnseenDecreases(g, st.seen, e.child);
      if limit <= depth {
        DfsEdgesAllSeen(g, Edges(g[e.child].shape), |st.list|, st1, -1, depth + 1);
      } else {
        DfsEdgesLimitSlack(g, Edges(g[e.child].shape), |st.list|, st1, limit, depth + 1);
      }
    }
  }

  lemma {:induction false} DfsEdgesLimitSlack(g: Graph, es: seq<Edge>, parent: nat, st: Progress, limit: int, depth: nat)
    requires WellFormed(g) && EdgesIn(g, es) && limit >= 0 && limit + 1 >= depth + Unseen(g, st.seen)
    ensures DfsEdges(g, es, parent, st, limit, depth) == DfsEdges(g, es, parent, st, -1, depth)
    decreases Unseen(g, st.seen), 1 + |es|
  {
    if es != [] {
      DfsLimitSlack(g, es[0], Some(parent), st, limit, depth);
      var st1 := Dfs(g, es[0], Some(parent), st, limit, depth);
      UnseenShrinks(g, st.seen, st1.seen);
      assert EdgesIn(g, es[1..]);
      DfsEdgesLimitSlack(g, es[1..], parent, st1, limit, depth);
    }
  }

  /** The list is a tree numbered in preorder: ids are positions, every entry but
      the first names a real, earlier parent on the path to the entry before it, and
      a non-negative limit bounds the depth. */
  lemma FlattenPreorder(g: Graph, root: nat, limit: int)
    requires WellFormed(g) && root < |g|
    ensures var list := Flatten(g, root, limit);
      list != [] && list[0].error == root && forall i :: 0 <= i < |list| ==> EntryOk(g, list, i, limit)
  {
    DfsTree(g, Edge(root, NoSource), None, Progress({}, []), limit, 0);
    assert Push(g, root, None, NoSource, Progress({}, [])).list[0].error == root;
  }

  /** Only errors reachable from the root are listed. */
  lemma {:induction false} FlattenSound(g: Graph, root: nat, limit: int, i: nat)
    requires WellFormed(g) && root < |g| && i < |Flatten(g, root, limit)|
    ensures Reaches(g, root, Flatten(g, root, limit)[i].error)
    decreases i
  {
    var list := Flatten(g, root, limit);
    FlattenPreorder(g, root, limit);
    assert EntryOk(g, list, i, limit);
    if i == 0 {
      assert IsPath(g, [root]);
    } else {
      var p := ParentOf(list[i]).value;
      FlattenSound(g, root, limit, p);
      var path :| IsPath(g, path) && path[0] == root && path[|path| - 1] == list[p].error;
      var longer := path + [list[i].error];
      forall k | 0 < k < |longer|
        ensures HasEdge(g, longer[k - 1], longer[k])
      {
        if k < |path| {
          assert HasEdge(g, path[k - 1], path[k]);
        }
      }
      assert IsPath(g, longer) && longer[0] == root && longer[|longer| - 1] == list[i].error;
    }
  }

  // ---------------------------------------------------------------------------
  // Siblings are listed in the order in which their parent unwraps to them
  // ---------------------------------------------------------------------------

  function IndexOf(source: Source): nat {
    if source.ErrorsIndex? then source.index else 0
  }

  function SourceIndex(x: Exception): nat {
    if x.mechanism.Some? then IndexOf(x.mechanism.value.source) else 0
  }

  ghost predicate SiblingsOrdered(list: seq<Exception>) {
    forall i, j :: 0 <= i < j < |list| && ParentOf(list[i]).Some? && ParentOf(list[i]) == ParentOf(list[j]) ==>
      SourceIndex(list[i]) < SourceIndex(list[j])
  }

  ghost predicate ParentsEarlier(list: seq<Exception>) {
    forall i :: 0 <= i < |list| && ParentOf(list[i]).Some? ==> ParentOf(list[i]).value < i
  }

  /** The children of entry `p` listed so far come from source positions before `bound`. */
  ghost predicate ChildrenBefore(list: seq<Exception>, p: nat, bound: nat) {
    forall i :: 0 <= i < |list| && ParentOf(list[i]) == Some(p) ==> SourceIndex(list[i]) < bound
  }

  ghost predicate EdgesSorted(es: seq<Edge>, from: nat) {
    && (forall a :: 0 <= a < |es| ==> from <= IndexOf(es[a].source))
    && (forall a, b :: 0 <= a < b < |es| ==> IndexOf(es[a].source) < IndexOf(es[b].source))
  }

  lemma {:induction false} GroupEdgesSorted(errors: seq<Option<nat>>, i: nat)
    requires i <= |errors|
    ensures EdgesSorted(GroupEdges(errors, i), i)
    decreases |errors| - i
  {
    if i < |errors| {
      GroupEdgesSorted(errors, i + 1);
    }
  }

  lemma PushSiblings(g: Graph, n: nat, p: nat, source: Source, st: Progress)
    requires n < |g| && p < |st.list| && SiblingsOrdered(st.list) && ParentsEarlier(st.list)
    requires ChildrenBefore(st.list, p, IndexOf(source))
    ensures var list := Push(g, n, Some(p), source, st).list;
      && SiblingsOrdered(list) && ParentsEarlier(list)
      && ChildrenBefore(list, p, IndexOf(source) + 1) && ChildrenBefore(list, |st.list|, 0)
  {
    assert forall i :: 0 <= i < |st.list| ==> Push(g, n, Some(p), source, st).list[i] == st.list[i];
  }

  /** No entry added after `list` is a child of entry `q`. */
  ghost predicate KeepsChildren(list: seq<Exception>, more: seq<Exception>, q: nat) {
    list <= more && forall i :: |list| <= i < |more| ==> ParentOf(more[i]) != Some(q)
  }

  lemma SubtreeSiblings(list: seq<Exception>, pushed: seq<Exception>, more: seq<Exception>, p: nat, bound: nat)
    requires |pushed| == |list| + 1 && list <= pushed && p < |list| && ParentOf(pushed[|list|]) == Some(p)
    requires ChildrenBefore(pushed, p, bound)
    requires more == pushed || forall q :: 0 <= q < |list| ==> KeepsChildren(pushed, more, q)
    ensures ChildrenBefore(more, p, bound)
    ensures forall q :: 0 <= q < |list| && q != p ==> KeepsChildren(list, more, q)
  {
    forall q | 0 <= q < |list|
      ensures q != p ==> KeepsChildren(list, more, q)
    {
      assert KeepsChildren(pushed, more, q);
    }
    assert KeepsChildren(pushed, more, p);
  }

  lemma {:induction false} DfsSiblings(g: Graph, e: Edge, p: nat, st: Progress, limit: int, depth: nat)
    requires WellFormed(g) && e.child < |g| && p < |st.list|
    requires SiblingsOrdered(st.list) && ParentsEarlier(st.list) && ChildrenBefore(st.list, p, IndexOf(e.source))
    ensures var list := Dfs(g, e, Some(p), st, limit, depth).list;
      && SiblingsOrdered(list) && ParentsEarlier(list) && ChildrenBefore(list, p, IndexOf(e.source) + 1)
      && forall q :: 0 <= q < |st.list| && q != p ==> KeepsChildren(st.list, list, q)
    decreases Unseen(g, st.seen), 0
  {
    if g[e.child].identity !in st.seen {
      var k := |st.list|;
      var st1 := Push(g, e.child, Some(p), e.source, st);
      PushSiblings(g, e.child, p, e.source, st);
      if !(0 <= limit <= depth) {
        UnseenDecreases(g, st.seen, e.child);
        var shape := g[e.child].shape;
        if shape.Group? {
          GroupEdgesSorted(shape.errors, 0);
        }
        DfsEdgesSiblings(g, Edges(shape), k, st1, limit, depth + 1, 0);
        assert Dfs(g, e, Some(p), st, limit, depth) == DfsEdges(g, Edges(shape), k, st1, limit, depth + 1);
      }
      SubtreeSiblings(st.list, st1.list, Dfs(g, e, Some(p), st, limit, depth).list, p, IndexOf(e.source) + 1);
    }
  }

  lemma {:induction false} DfsEdgesSiblings(g: Graph, es: seq<Edge>, p: nat, st: Progress, limit: int, depth: nat, from: nat)
    requires WellFormed(g) && EdgesIn(g, es) && p < |st.list| && EdgesSorted(es, from)
    requires SiblingsOrdered(st.list) && ParentsEarlier(st.list) && ChildrenBefore(st.list, p, from)
    ensures var list := DfsEdges(g, es, p, st, limit, depth).list;
      && SiblingsOrdered(list) && ParentsEarlier(list)
      && forall q :: 0 <= q < |st.list| && q != p ==> KeepsChildren(st.list, list, q)
    decreases Unseen(g, st.seen), 1 + |es|
  {
    if es != [] {
      var st1 := Dfs(g, es[0], Some(p), st, limit, depth);
      DfsSiblings(g, es[0], p, st, limit, depth);
      UnseenShrinks(g, st.seen, st1.seen);
      assert EdgesIn(g, es[1..]);
      DfsEdgesSiblings(g, es[1..], p, st1, limit, depth, IndexOf(es[0].source) + 1);
      var list := DfsEdges(g, es[1..], p, st1, limit, depth).list;
      forall q | 0 <= q < |st.list| && q != p
        ensures KeepsChildren(st.list, list, q)
      {
        assert KeepsChildren(st.list, st1.list, q) && KeepsChildren(st1.list, list, q);
      }
    }
  }

  /** Entries with the same parent appear in the order of their source index. */
  lemma FlattenSiblings(g: Graph, root: nat, limit: int)
    requires WellFormed(g) && root < |g|
    ensures SiblingsOrdered(Flatten(g, root, limit))
  {
    var st := Progress({}, []);
    if limit != 0 {
      UnseenDecreases(g, {}, root);
      var shape := g[root].shape;
      if shape.Group? {
        GroupEdgesSorted(shape.errors, 0);
      }
      DfsEdgesSiblings(g, Edges(shape), 0, Push(g, root, None, NoSource, st), limit, 1, 0);
    }
  }

  // ---------------------------------------------------------------------------
  // The whole conversion
  // ---------------------------------------------------------------------------

  method Reverse(list: seq<Exception>) returns (reversed: seq<Exception>)
    ensures |reversed| == |list|
    ensures forall j :: 0 <= j < |list| ==> reversed[j] == list[|list| - 1 - j]
  {
    reversed := list;
    var n := |list|;
    for i := 0 to n / 2
      invariant |reversed| == n
      invariant forall k :: 0 <= k < i || n - i <= k < n ==> reversed[k] == list[n - 1 - k]
      invariant forall k :: i <= k < n - i ==> reversed[k] == list[k]
    {
      reversed := reversed[i := reversed[n - 1 - i]][n - 1 - i := reversed[i]];
    }
  }

  /** convertErrorToExceptions: position `j` of the result is entry `n-1-j` of the
      numbered tree; a lone exception loses its mechanism. */
  method ConvertErrorToExceptions(g: Graph, err: Option<nat>, maxErrorDepth: int) returns (exceptions: seq<Exception>)
    requires WellFormed(g) && (err.Some? ==> err.value < |g|)
    ensures err.None? ==> exceptions == []
    ensures err.Some? ==>
              var list := Flatten(g, err.value, maxErrorDepth);
              && |exceptions| == |list|
              && (|list| == 1 ==> exceptions == [list[0].(mechanism := None)])
              && (|list| > 1 ==> forall j :: 0 <= j < |list| ==> exceptions[j] == list[|list| - 1 - j])
  {
    var list := new ExceptionList();
    var visited := new Visited();
    ConvertErrorDFS(g, err, list, None, NoSource, visited, maxErrorDepth, 0);
    exceptions := list.exceptions;
    if |exceptions| == 1 {
      exceptions := [exceptions[0].(mechanism := None)];
    }
    exceptions := Reverse(exceptions);
  }

  /** After the reversal, position `j` of a chained result holds the exception with id `n-1-j`. */
  lemma ReversedIds(g: Graph, root: nat, limit: int, exceptions: seq<Exception>, j: nat)
    requires WellFormed(g) && root < |g|
    requires |exceptions| == |Flatten(g, root, limit)| && j < |exceptions|
    requires exceptions[j] == Flatten(g, root, limit)[|exceptions| - 1 - j]
    ensures exceptions[j].mechanism.Some? && exceptions[j].mechanism.value.exceptionID == |exceptions| - 1 - j
    ensures exceptions[j].mechanism.value.parentID.Some? <==> j < |exceptions| - 1
  {
    FlattenPreorder(g, root, limit);
    assert EntryOk(g, Flatten(g, root, limit), |exceptions| - 1 - j, limit);
  }

  // ---------------------------------------------------------------------------
  // Where completeness needs its conditions
  // ---------------------------------------------------------------------------

  /** Error 0 joins errors 1 and 2, error 1 wraps 2, and 2 wraps 3. */
  function Diamond(): Graph {
    [ErrorNode(Pointer(0), Group([Some(1), Some(2)])), ErrorNode(Pointer(1), Wrapper(Some(2))),
     ErrorNode(Pointer(2), Wrapper(Some(3))), ErrorNode(Pointer(3), Plain)]
  }

  lemma DiamondEdges()
    ensures WellFormed(Diamond())
    ensures Edges(Diamond()[0].shape) == [Edge(1, ErrorsIndex(0)), Edge(2, ErrorsIndex(1))]
    ensures Edges(Diamond()[1].shape) == [Edge(2, UnwrapSource)] && Edges(Diamond()[2].shape) == [Edge(3, UnwrapSource)]
  {
    var es := GroupEdges([Some(1), Some(2)], 0);
    assert es == [Edge(1, ErrorsIndex(0)), Edge(2, ErrorsIndex(1))] by {
      assert GroupEdges([Some(1), Some(2)], 1) == [Edge(2, ErrorsIndex(1))] + GroupEdges([Some(1), Some(2)], 2);
    }
    assert Edges(Diamond()[3].shape) == [];
  }

  lemma DiamondPath()
    ensures IsPath(Diamond(), [0, 2, 3])
  {
    DiamondEdges();
    var g := Diamond();
    assert HasEdge(g, 0, 2) by { assert Unwraps(g[0].shape, 2, ErrorsIndex(1)); }
    assert HasEdge(g, 2, 3) by { assert Unwraps(g[2].shape, 3, UnwrapSource); }
  }

  /** With a limit of 2, error 2 is met first at depth 2 and not expanded; its second
      occurrence, at depth 1, is already visited.  Error 3, two unwrappings away, is lost. */
  lemma DepthLimitHidesErrors()
    ensures WellFormed(Diamond())
    ensures IsPath(Diamond(), [0, 2, 3])
    ensures !Listed(Diamond(), Flatten(Diamond(), 0, 2), Pointer(3))
  {
    DiamondEdges();
    DiamondPath();
    var g := Diamond();
    var es := Edges(g[0].shape);
    var st0 := Push(g, 0, None, NoSource, Progress({}, []));
    var st1 := Push(g, 1, Some(0), ErrorsIndex(0), st0);
    var st2 := Push(g, 2, Some(1), UnwrapSource, st1);
    assert Dfs(g, Edge(2, UnwrapSource), Some(1), st1, 2, 2) == st2;
    assert DfsEdges(g, [Edge(2, UnwrapSource)], 1, st1, 2, 2) == st2;
    assert Dfs(g, es[0], Some(0), st0, 2, 1) == st2;
    assert Dfs(g, es[1], Some(0), st2, 2, 1) == st2;
    assert DfsEdges(g, es[1..], 0, st2, 2, 1) == st2;
    assert Dfs(g, Edge(0, NoSource), None, Progress({}, []), 2, 0) == st2;
  }

  // ---------------------------------------------------------------------------
  // Which limits are large enough
  // ---------------------------------------------------------------------------

  /** Error `i` of `n` wraps error `i + 1`. */
  function Chain(n: nat): (g: Graph)
    ensures |g| == n
    ensures forall i :: 0 <= i < n ==>
      g[i] == ErrorNode(Pointer(i), if i + 1 < n then Wrapper(Some(i + 1)) else Plain)
  {
    seq(n, i requires 0 <= i < n => ErrorNode(Pointer(i), if i + 1 < n then Wrapper(Some(i + 1)) else Plain))
  }

  lemma ChainEdges(n: nat)
    ensures WellFormed(Chain(n)) && ChildrenByIdentity(Chain(n))
    ensures forall i :: 0 <= i < n ==>
      Edges(Chain(n)[i].shape) == if i + 1 < n then [Edge(i + 1, UnwrapSource)] else []
  {
    var g := Chain(n);
    forall a, b, c: nat, source | 0 <= a < n && 0 <= b < n && g[a].identity == g[b].identity && Unwraps(g[a].shape, c, source)
      ensures c < n && HasChildLike(g, b, g[c].identity)
    {
      assert a == b;
    }
  }

  lemma {:induction false} ChainIdentities(n: nat)
    ensures |Identities(Chain(n))| <= n
  {
    if n == 0 {
      assert Identities(Chain(n)) == {};
    } else {
      ChainIdentities(n - 1);
      SubsetSize(Identities(Chain(n)), Identities(Chain(n - 1)) + {Pointer(n - 1)});
    }
  }

  lemma ChainReaches(n: nat)
    requires n > 0
    ensures Reaches(Chain(n), 0, n - 1)
  {
    var g := Chain(n);
    ChainEdges(n);
    var path := seq(n, i requires 0 <= i < n => i);
    forall k | 0 < k < n
      ensures HasEdge(g, path[k - 1], path[k])
    {
      assert Unwraps(g[k - 1].shape, k, UnwrapSource);
    }
    assert IsPath(g, path) && path[0] == 0 && path[|path| - 1] == n - 1;
  }

  /** An error that wraps one other and is not too deep hands over to that one. */
  lemma DfsOnlyChild(g: Graph, e: Edge, child: Edge, parent: Option<nat>, st: Progress, limit: int, depth: nat)
    requires WellFormed(g) && e.child < |g| && child.child < |g|
    requires g[e.child].identity !in st.seen && Edges(g[e.child].shape) == [child] && depth < limit
    ensures Dfs(g, e, parent, st, limit, depth)
            == Dfs(g, child, Some(|st.list|), Push(g, e.child, parent, e.source, st), limit, depth + 1)
  {
    var st1 := Push(g, e.child, parent, e.source, st);
    var es := [child];
    assert EdgesIn(g, es);
    assert es[1..] == [];
    assert DfsEdges(g, es, |st.list|, st1, limit, depth + 1) == Dfs(g, child, Some(|st.list|), st1, limit, depth + 1);
  }

  ghost predicate OnlyErrorsUpTo(list: seq<Exception>, limit: int) {
    forall i :: 0 <= i < |list| ==> list[i].error <= limit
  }

  /** From error `d` at depth `d` of a chain, only errors up to the limit are listed. */
  lemma {:induction false} ChainCut(n: nat, limit: int, d: nat, source: Source, parent: Option<nat>, st: Progress)
    requires d <= limit < n - 1 && WellFormed(Chain(n)) && OnlyErrorsUpTo(st.list, limit)
    requires forall id <- st.seen :: id.Pointer? && id.address < d
    ensures OnlyErrorsUpTo(Dfs(Chain(n), Edge(d, source), parent, st, limit, d).list, limit)
    decreases limit - d
  {
    var g := Chain(n);
    var st1 := Push(g, d, parent, source, st);
    if d < limit {
      ChainEdges(n);
      DfsOnlyChild(g, Edge(d, source), Edge(d + 1, UnwrapSource), parent, st, limit, d);
      ChainCut(n, limit, d + 1, UnwrapSource, Some(|st.list|), st1);
    } else {
      assert Dfs(g, Edge(d, source), parent, st, limit, d) == st1;
    }
  }

  /** The limit is enough for every graph of at most `n` identities. */
  ghost predicate Suffices(limit: int, n: nat) {
    forall g: Graph, root: nat, m: nat ::
      WellFormed(g) && root < |g| && m < |g| && |Identities(g)| <= n && ChildrenByIdentity(g) && Reaches(g, root, m) ==>
        Listed(g, Flatten(g, root, limit), g[m].identity)
  }

  /** Exactly the limits with which the listing is complete: none, or at least the number of
      identities less one. */
  lemma LimitSufficesIff(limit: int, n: nat)
    requires n > 0
    ensures Suffices(limit, n) <==> limit < 0 || limit + 1 >= n
  {
    if limit < 0 || limit + 1 >= n {
      forall g: Graph, root: nat, m: nat
        | WellFormed(g) && root < |g| && m < |g| && |Identities(g)| <= n && ChildrenByIdentity(g) && Reaches(g, root, m)
        ensures Listed(g, Flatten(g, root, limit), g[m].identity)
      {
        FlattenComplete(g, root, limit, m);
      }
    } else {
      ChainEdges(n);
      ChainIdentities(n);
      ChainReaches(n);
      ChainCut(n, limit, 0, NoSource, None, Progress({}, []));
      assert !Listed(Chain(n), Flatten(Chain(n), 0, limit), Chain(n)[n - 1].identity);
    }
  }
}
