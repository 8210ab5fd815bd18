/** The client half of paging: one Browse for a batch, BrowseNext until every point is exhausted, and the
    nodes refused a continuation point asked for again, alone. */
module Browsing {
  import opened Services
  import opened Chunking
  import opened Paging

  type Graph = map<nat, seq<Reference>>

  /** The batch indices being paged, with their continuation points. */
  type Pending = map<nat, nat>

  function Point(pending: Pending, i: nat): Option<nat> {
    if i in pending then Some(pending[i]) else None
  }

  /** How far one node is: unknown and failed, waiting to be asked alone, or complete with what
      its point still holds. */
  ghost predicate AtNode(graph: Graph, node: nat, refs: seq<Reference>, failed: bool, waiting: bool, point: Option<nat>, held: Store) {
    if node !in graph then refs == [] && failed && !waiting && point.None?
    else
      && !failed && (point.Some? ==> !waiting && point.value in held)
      && refs + Rest(point, held) == if waiting then [] else graph[node]
  }

  /** Each point held belongs to one of the nodes being paged. */
  ghost predicate Owns(pending: Pending, held: Store) {
    && (forall i, j :: i in pending && j in pending && pending[i] == pending[j] ==> i == j)
    && held.Keys == pending.Values
  }

  ghost function Total(ss: seq<seq<Reference>>): nat {
    if ss == [] then 0 else |ss[0]| + Total(ss[1..])
  }

  lemma {:induction false} TotalGrows(a: seq<seq<Reference>>, b: seq<seq<Reference>>)
    requires |a| == |b| && forall i :: 0 <= i < |a| ==> |a[i]| <= |b[i]|
    ensures Total(a) <= Total(b)
    ensures (exists i :: 0 <= i < |a| && |a[i]| < |b[i]|) ==> Total(a) < Total(b)
  {
    if a != [] {
      TotalGrows(a[1..], b[1..]);
      if i :| 0 <= i < |a| && |a[i]| < |b[i]| {
        assert i > 0 ==> |a[1..][i - 1]| < |b[1..][i - 1]|;
      }
    }
  }

  /** Every node's references, none for an unknown one. */
  function Complete(graph: Graph, nodes: seq<nat>): (r: seq<seq<Reference>>)
    ensures |r| == |nodes|
    ensures forall i :: 0 <= i < |nodes| ==> r[i] == if nodes[i] in graph then graph[nodes[i]] else []
  {
    seq(|nodes|, i requires 0 <= i < |nodes| => if nodes[i] in graph then graph[nodes[i]] else [])
  }

  /** The state of a batch, `refs` so far, after its first `n` pages. */
  datatype Batch = Batch(refs: seq<seq<Reference>>, failed: map<nat, Status>, waiting: set<nat>, pending: Pending)
  {
    ghost predicate Sorted(graph: Graph, nodes: seq<nat>, n: nat, held: Store) {
      && |refs| == |nodes| && n <= |nodes|
      && (forall i :: i in failed || i in waiting || i in pending ==> i < n)
      && (forall i :: n <= i < |nodes| ==> refs[i] == [])
      && (forall i :: 0 <= i < n ==> AtNode(graph, nodes[i], refs[i], i in failed, i in waiting, Point(pending, i), held))
    }
  }

  /** One more page changes what is known of its own node only. */
  lemma SortedNext(graph: Graph, nodes: seq<nat>, n: nat, b: Batch, next: Batch, held: Store)
    requires n < |nodes| && b.Sorted(graph, nodes, n, held)
    requires |next.refs| == |nodes| && next.refs == b.refs[n := next.refs[n]]
    requires next.failed - {n} == b.failed && next.waiting - {n} == b.waiting && next.pending - {n} == b.pending
    requires AtNode(graph, nodes[n], next.refs[n], n in next.failed, n in next.waiting, Point(next.pending, n), held)
    ensures next.Sorted(graph, nodes, n + 1, held)
  {
    forall i | i in next.failed || i in next.waiting || i in next.pending
      ensures i == n || i in b.failed || i in b.waiting || i in b.pending
    {
      assert i == n || i in next.failed - {n} || i in next.waiting - {n} || i in next.pending - {n};
    }
    forall i | 0 <= i < n
      ensures AtNode(graph, nodes[i], next.refs[i], i in next.failed, i in next.waiting, Point(next.pending, i), held)
    {
      assert i in next.failed <==> i in b.failed;
      assert Point(next.pending, i) == Point(b.pending, i);
    }
  }

  /** The state after one more page. */
  method SortPage(s: Server, nodes: seq<nat>, n: nat, b: Batch, page: Page, retry: bool) returns (next: Batch)
    requires n < |nodes| && b.Sorted(s.graph, nodes, n, s.held) && s.Answers(nodes[n], page, s.held)
    requires page.status.NoContinuationPoints? ==> retry
    ensures next.Sorted(s.graph, nodes, n + 1, s.held)
    ensures next.pending == if page.point.Some? then b.pending[n := page.point.value] else b.pending
    ensures next.waiting != b.waiting ==> retry && s.maxPoints > 0
  {
    next := b;
    if page.status.NoContinuationPoints? && retry {
      next := b.(waiting := b.waiting + {n});
    } else if !page.status.Fine? {
      next := b.(failed := b.failed[n := page.status]);
    } else {
      next := b.(refs := b.refs[n := b.refs[n] + page.refs]);
      assert next.refs[n] == page.refs;
      if page.point.Some? {
        next := next.(pending := b.pending[n := page.point.value]);
      }
    }
    SortedNext(s.graph, nodes, n, b, next, s.held);
  }

  /** The points pending are those of the first `n` pages. */
  ghost predicate Matches(pending: Pending, pages: seq<Page>, n: nat)
    requires n <= |pages|
  {
    && (forall k :: k in pending <==> 0 <= k < n && pages[k].point.Some?)
    && forall k :: k in pending ==> pages[k].point == Some(pending[k])
  }

  /** What sorting keeps. */
  ghost predicate Sorting(s: Server, nodes: seq<nat>, pages: seq<Page>, retry: bool, b: Batch, n: nat)
    requires n <= |pages|
    reads s
  {
    && b.Sorted(s.graph, nodes, n, s.held) && Matches(b.pending, pages, n)
    && (b.waiting != {} ==> retry && s.maxPoints > 0)
  }

  method SortNext(s: Server, nodes: seq<nat>, pages: seq<Page>, retry: bool, b: Batch, n: nat) returns (next: Batch)
    requires |pages| == |nodes| && n < |nodes| && s.Answers(nodes[n], pages[n], s.held)
    requires pages[n].status.NoContinuationPoints? ==> retry
    requires Sorting(s, nodes, pages, retry, b, n)
    ensures Sorting(s, nodes, pages, retry, next, n + 1)
  {
    next := SortPage(s, nodes, n, b, pages[n], retry);
  }

  /** Sorts the first pages: failed, refused a point, or to be followed. */
  method Sort(s: Server, nodes: seq<nat>, pages: seq<Page>, retry: bool) returns (b: Batch)
    requires |pages| == |nodes| && s.Answered(nodes, pages, s.held) && Holds(pages, map[], s.held, 0)
    requires !retry ==> forall k :: 0 <= k < |pages| ==> !pages[k].status.NoContinuationPoints?
    ensures b.Sorted(s.graph, nodes, |nodes|, s.held) && Owns(b.pending, s.held)
    ensures b.waiting != {} ==> retry && s.maxPoints > 0
  {
    b := Batch(seq(|nodes|, i => []), map[], {}, map[]);
    var i := 0;
    while i < |nodes|
      invariant 0 <= i <= |nodes| && Sorting(s, nodes, pages, retry, b, i)
    {
      b := SortNext(s, nodes, pages, retry, b, i);
      i := i + 1;
    }
    SortedOwns(b.pending, pages, s.held);
  }

  lemma SortedOwns(pending: Pending, pages: seq<Page>, held: Store)
    requires Holds(pages, map[], held, 0) && Matches(pending, pages, |pages|)
    ensures Owns(pending, held)
  {
    forall p | p in held
      ensures p in pending.Values
    {
      var k :| 0 <= k < |pages| && Points(pages)[k] == Some(p);
      assert k in pending && pending[k] == p;
    }
  }

  // ------------------------------------------------------------ following the points

  /** The batch after the first `n` of the nodes asked for their next page: those have moved on to
      `held`, the others to be asked are as they were. */
  ghost predicate Moving(graph: Graph, nodes: seq<nat>, b: Batch, next: Batch, asked: seq<nat>, n: nat, held: Store)
    requires n <= |asked|
  {
    && |b.refs| == |nodes| && |next.refs| == |nodes|
    && next.failed == b.failed && next.waiting == b.waiting
    && (forall i :: i in next.pending ==> i in asked[..n])
    && (forall i :: 0 <= i < |nodes| ==> |b.refs[i]| <= |next.refs[i]|)
    && (forall i :: 0 <= i < |nodes| && i in asked[..n] ==> |b.refs[i]| < |next.refs[i]|)
    && (forall i :: 0 <= i < |nodes| && i in asked[n..] ==> next.refs[i] == b.refs[i])
    && (forall i :: 0 <= i < |nodes| && i !in asked[n..] ==>
          AtNode(graph, nodes[i], next.refs[i], i in next.failed, i in next.waiting, Point(next.pending, i), held))
  }

  lemma MovingNext(graph: Graph, nodes: seq<nat>, b: Batch, next: Batch, asked: seq<nat>, n: nat, held: Store,
                   rest: seq<Reference>, page: Page, moved: Batch)
    requires n < |asked| && NoRepeats(asked) && asked[n] < |nodes|
    requires Moving(graph, nodes, b, next, asked, n, held)
    requires nodes[asked[n]] in graph && asked[n] !in b.failed && asked[n] !in b.waiting
    requires b.refs[asked[n]] + rest == graph[nodes[asked[n]]]
    requires Splits(page, rest, held) && page.refs != []
    requires moved == next.(refs := next.refs[asked[n] := next.refs[asked[n]] + page.refs],
                            pending := if page.point.Some? then next.pending[asked[n] := page.point.value] else next.pending)
    ensures Moving(graph, nodes, b, moved, asked, n + 1, held)
  {
    var i := asked[n];
    assert asked[..n + 1] == asked[..n] + [i];
    assert asked[n..] == [i] + asked[n + 1..];
    assert i !in asked[..n] && i !in asked[n + 1..];
    assert (b.refs[i] + page.refs) + Rest(page.point, held) == b.refs[i] + (page.refs + Rest(page.point, held));
    assert AtNode(graph, nodes[i], moved.refs[i], i in moved.failed, i in moved.waiting, Point(moved.pending, i), held);
    forall k | 0 <= k < |nodes| && k !in asked[n + 1..] && k != i
      ensures AtNode(graph, nodes[k], moved.refs[k], k in moved.failed, k in moved.waiting, Point(moved.pending, k), held)
    {
      assert Point(moved.pending, k) == Point(next.pending, k);
    }
  }

  /** The batch indices being paged, ascending. */
  method Asked(n: nat, pending: Pending) returns (asked: seq<nat>)
    requires forall i :: i in pending ==> i < n
    ensures NoRepeats(asked) && Elems(asked) == pending.Keys
  {
    asked := [];
    var i := 0;
    while i < n
      invariant 0 <= i <= n
      invariant NoRepeats(asked)
      invariant forall k :: k in asked <==> k in pending && k < i
    {
      if i in pending {
        assert forall k :: 0 <= k < |asked| ==> asked[k] in asked;
        asked := asked + [i];
      }
      i := i + 1;
    }
  }

  /** One BrowseNext for every node still being paged: each gets at least a reference more. */
  method Round(s: Server, nodes: seq<nat>, b: Batch) returns (next: Batch)
    requires s.Valid() && b.Sorted(s.graph, nodes, |nodes|, s.held) && Owns(b.pending, s.held) && b.pending != map[]
    modifies s
    ensures s.Valid() && next.Sorted(s.graph, nodes, |nodes|, s.held) && Owns(next.pending, s.held)
    ensures next.waiting == b.waiting
    ensures Total(b.refs) < Total(next.refs)
  {
    ghost var held := s.held;
    var asked := Asked(|nodes|, b.pending);
    var points := seq(|asked|, k requires 0 <= k < |asked| => assert asked[k] in asked; b.pending[asked[k]]);
    var pages := s.BrowseNext(points);
    next := Collect(s, nodes, b, asked, points, pages, held);
    MovingLast(s.graph, nodes, b, next, asked, held, s.held);
    HandedOwns(asked, pages, next.pending, s.held, old(s.lastPoint));
  }

  /** The points handed out so far are those of the first `k` pages. */
  ghost predicate Handed(asked: seq<nat>, pages: seq<Page>, k: nat, pending: Pending)
    requires k <= |asked| == |pages|
  {
    && (forall i :: i in pending ==> i in asked[..k])
    && (forall j :: 0 <= j < k ==> Point(pending, asked[j]) == pages[j].point)
  }

  /** Hands each page to its node. */
  method Collect(s: Server, nodes: seq<nat>, b: Batch, asked: seq<nat>, points: seq<nat>, pages: seq<Page>, ghost was: Store)
    returns (next: Batch)
    requires b.Sorted(s.graph, nodes, |nodes|, was) && NoRepeats(asked) && Elems(asked) == b.pending.Keys
    requires |pages| == |points| == |asked|
    requires forall k :: 0 <= k < |asked| ==> asked[k] in b.pending && points[k] == b.pending[asked[k]] && points[k] in was
    requires Continued(points, pages, was, s.held)
    ensures Moving(s.graph, nodes, b, next, asked, |asked|, s.held)
    ensures Handed(asked, pages, |asked|, next.pending)
  {
    next := b.(pending := map[]);
    var k := 0;
    MovingFirst(s.graph, nodes, b, asked, was, s.held);
    while k < |asked|
      invariant 0 <= k <= |asked|
      invariant Moving(s.graph, nodes, b, next, asked, k, s.held)
      invariant Handed(asked, pages, k, next.pending)
    {
      next := Hand(s, nodes, b, next, asked, k, pages, points[k], was);
      k := k + 1;
    }
  }

  /** Hands one page to its node. */
  method Hand(s: Server, nodes: seq<nat>, b: Batch, moved: Batch, asked: seq<nat>, k: nat, pages: seq<Page>, point: nat,
              ghost was: Store) returns (next: Batch)
    requires b.Sorted(s.graph, nodes, |nodes|, was) && NoRepeats(asked) && Elems(asked) == b.pending.Keys
    requires k < |asked| == |pages| && asked[k] in b.pending && point == b.pending[asked[k]] && point in was
    requires Splits(pages[k], was[point], s.held) && pages[k].refs != []
    requires Moving(s.graph, nodes, b, moved, asked, k, s.held) && Handed(asked, pages, k, moved.pending)
    ensures Moving(s.graph, nodes, b, next, asked, k + 1, s.held) && Handed(asked, pages, k + 1, next.pending)
  {
    var i, page := asked[k], pages[k];
    AskedAt(s.graph, nodes, b, asked, k, was);
    next := moved.(refs := moved.refs[i := moved.refs[i] + page.refs],
                   pending := if page.point.Some? then moved.pending[i := page.point.value] else moved.pending);
    MovingNext(s.graph, nodes, b, moved, asked, k, s.held, was[point], page, next);
    HandedNext(asked, pages, k, moved.pending, next.pending);
  }

  lemma AskedAt(graph: Graph, nodes: seq<nat>, b: Batch, asked: seq<nat>, k: nat, was: Store)
    requires k < |asked| && b.Sorted(graph, nodes, |nodes|, was) && Elems(asked) == b.pending.Keys
    ensures asked[k] in b.pending && asked[k] < |nodes| && nodes[asked[k]] in graph
    ensures asked[k] !in b.failed && asked[k] !in b.waiting && b.pending[asked[k]] in was
    ensures b.refs[asked[k]] + was[b.pending[asked[k]]] == graph[nodes[asked[k]]]
  {
    var i := asked[k];
    assert i in Elems(asked) && i in b.pending;
    assert AtNode(graph, nodes[i], b.refs[i], i in b.failed, i in b.waiting, Point(b.pending, i), was);
  }

  lemma HandedNext(asked: seq<nat>, pages: seq<Page>, k: nat, pending: Pending, next: Pending)
    requires k < |asked| == |pages| && NoRepeats(asked) && Handed(asked, pages, k, pending)
    requires next == if pages[k].point.Some? then pending[asked[k] := pages[k].point.value] else pending
    ensures Handed(asked, pages, k + 1, next)
  {
    assert asked[..k + 1] == asked[..k] + [asked[k]];
    assert asked[k] !in asked[..k];
  }

  lemma HandedOwns(asked: seq<nat>, pages: seq<Page>, pending: Pending, held: Store, mark: nat)
    requires |asked| == |pages| && Handed(asked, pages, |asked|, pending) && Holds(pages, map[], held, mark)
    ensures Owns(pending, held)
  {
    forall p | p in held
      ensures p in pending.Values
    {
      var k :| 0 <= k < |pages| && Points(pages)[k] == Some(p);
      assert Point(pending, asked[k]) == Some(p);
    }
    forall i | i in pending
      ensures exists k :: 0 <= k < |pages| && asked[k] == i && pages[k].point == Some(pending[i])
    {
      var k :| 0 <= k < |pages| && asked[..|asked|][k] == i;
      assert Point(pending, asked[k]) == pages[k].point;
    }
  }

  lemma MovingLast(graph: Graph, nodes: seq<nat>, b: Batch, next: Batch, asked: seq<nat>, was: Store, held: Store)
    requires b.Sorted(graph, nodes, |nodes|, was) && asked != [] && Elems(asked) == b.pending.Keys
    requires Moving(graph, nodes, b, next, asked, |asked|, held)
    ensures next.Sorted(graph, nodes, |nodes|, held) && next.waiting == b.waiting
    ensures Total(b.refs) < Total(next.refs)
  {
    assert asked[..|asked|] == asked && asked[|asked|..] == [];
    var i := asked[0];
    assert i in Elems(asked) && i in b.pending;
    assert 0 <= i < |nodes| && |b.refs[i]| < |next.refs[i]|;
    TotalGrows(b.refs, next.refs);
    forall i | i in next.pending
      ensures i < |nodes|
    {
      assert i in Elems(asked);
    }
  }

  lemma MovingFirst(graph: Graph, nodes: seq<nat>, b: Batch, asked: seq<nat>, was: Store, held: Store)
    requires b.Sorted(graph, nodes, |nodes|, was) && Elems(asked) == b.pending.Keys
    ensures Moving(graph, nodes, b, b.(pending := map[]), asked, 0, held)
  {
    assert asked[0..] == asked;
    forall i | 0 <= i < |nodes| && i !in asked
      ensures AtNode(graph, nodes[i], b.refs[i], i in b.failed, i in b.waiting, None, held)
    {
      assert AtNode(graph, nodes[i], b.refs[i], i in b.failed, i in b.waiting, Point(b.pending, i), was);
    }
  }

  // ------------------------------------------------------------ the whole batch

  lemma SortedBound(graph: Graph, nodes: seq<nat>, b: Batch, held: Store)
    requires b.Sorted(graph, nodes, |nodes|, held)
    ensures Total(b.refs) <= Total(Complete(graph, nodes))
  {
    forall i | 0 <= i < |nodes|
      ensures |b.refs[i]| <= |Complete(graph, nodes)[i]|
    {
      assert AtNode(graph, nodes[i], b.refs[i], i in b.failed, i in b.waiting, Point(b.pending, i), held);
    }
    TotalGrows(b.refs, Complete(graph, nodes));
  }

  /** Every node's references, complete and in order, and the nodes that failed: the unknown ones. No
      continuation point is left held, whatever the caps. */
  method BrowseBatch(s: Server, nodes: seq<nat>, retry: bool)
    returns (refs: seq<seq<Reference>>, failed: map<nat, Status>)
    requires s.Valid() && s.held == map[] && (s.maxNodes == 0 || |nodes| <= s.maxNodes)
    requires retry || |nodes| == 1
    modifies s
    ensures s.Valid() && s.held == map[]
    ensures refs == Complete(s.graph, nodes)
    ensures forall i :: i in failed <==> 0 <= i < |nodes| && nodes[i] !in s.graph
    decreases retry
  {
    var b := Follow(s, nodes, retry);
    refs, failed := b.refs, b.failed;
    var i := 0;
    while i < |nodes|
      invariant 0 <= i <= |nodes| == |refs|
      invariant s.Valid() && s.held == map[]
      invariant forall k :: 0 <= k < |nodes| ==>
                  refs[k] == if k in b.waiting && k >= i then [] else Complete(s.graph, nodes)[k]
      invariant failed == b.failed
    {
      if i in b.waiting {
        assert AtNode(s.graph, nodes[i], b.refs[i], i in b.failed, i in b.waiting, None, map[]);
        var alone, again := BrowseBatch(s, [nodes[i]], false);
        refs := refs[i := alone[0]];
        failed := Blame(failed, i, again);
      }
      i := i + 1;
    }
  }

  /** A node asked for alone that failed again. */
  function Blame(failed: map<nat, Status>, i: nat, again: map<nat, Status>): (r: map<nat, Status>)
    ensures again == map[] ==> r == failed
  {
    if 0 in again then failed[i := again[0]] else failed
  }

  /** Browse, and BrowseNext until nothing is held. */
  method Follow(s: Server, nodes: seq<nat>, retry: bool) returns (b: Batch)
    requires s.Valid() && s.held == map[] && (s.maxNodes == 0 || |nodes| <= s.maxNodes)
    requires retry || |nodes| == 1
    modifies s
    ensures s.Valid() && s.held == map[] && b.pending == map[]
    ensures b.Sorted(s.graph, nodes, |nodes|, map[])
    ensures b.waiting != {} ==> retry
  {
    var pages := s.Browse(nodes);
    b := Sort(s, nodes, pages, retry);
    while b.pending != map[]
      invariant s.Valid() && b.Sorted(s.graph, nodes, |nodes|, s.held) && Owns(b.pending, s.held)
      invariant b.waiting != {} ==> retry
      decreases Total(Complete(s.graph, nodes)) - Total(b.refs)
    {
      SortedBound(s.graph, nodes, b, s.held);
      b := Round(s, nodes, b);
      SortedBound(s.graph, nodes, b, s.held);
    }
    assert s.held == map[];
  }
}
