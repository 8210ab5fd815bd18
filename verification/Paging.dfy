/**
 Browse with continuation points, both halves: a server that pages its answers and holds few
 points, and the client that follows every point to the end and asks again alone for the nodes
 the server had no point left for.
 */
module Paging {
  import opened Services
  import opened Chunking

  /** A forward reference: its target, BrowseName and kind. */
  datatype Reference = Reference(node: nat, name: string, kind: Kind, remote: bool)

  datatype Kind = Property | Variable | Object | Other

  datatype Status = Fine | NoContinuationPoints | ContinuationPointInvalid | NodeIdUnknown

  datatype Page = Page(status: Status, refs: seq<Reference>, point: Option<nat>)

  type Store = map<nat, seq<Reference>>

  /** What is left at a point, nothing without one. */
  function Rest(point: Option<nat>, held: Store): seq<Reference> {
    if point.Some? && point.value in held then held[point.value] else []
  }

  /** A good page and what its point holds make up `refs`. */
  ghost predicate Splits(page: Page, refs: seq<Reference>, held: Store) {
    && page.status.Fine?
    && (page.point.Some? ==> page.point.value in held)
    && page.refs + Rest(page.point, held) == refs
  }

  /** One page is served: nothing else changes, a new point is numbered past `last`. */
  ghost predicate Served(page: Page, held: Store, now: Store, last: nat, nowLast: nat) {
    && last <= nowLast
    && (page.point.None? ==> now == held)
    && (page.point.Some? ==>
          && page.status.Fine? && last < page.point.value <= nowLast && page.point.value in now
          && now - {page.point.value} == held)
  }

  /** The points held are those of `before`, untouched, and one for each page that has one, all
      numbered past `mark`. */
  ghost predicate Holds(pages: seq<Page>, before: Store, now: Store, mark: nat) {
    && (forall p :: p in before ==> p in now && now[p] == before[p])
    && (forall i :: 0 <= i < |pages| && pages[i].point.Some? ==>
          pages[i].status.Fine? && pages[i].point.value in now && pages[i].point.value > mark)
    && (forall i, j :: 0 <= i < j < |pages| && pages[i].point.Some? ==> pages[i].point != pages[j].point)
    && (forall p :: p in now && p !in before ==> Some(p) in Points(pages))
  }

  ghost function Points(pages: seq<Page>): (r: seq<Option<nat>>)
    ensures |r| == |pages| && forall i :: 0 <= i < |r| ==> r[i] == pages[i].point
  {
    seq(|pages|, i requires 0 <= i < |pages| => pages[i].point)
  }

  lemma HoldsMore(pages: seq<Page>, page: Page, before: Store, now: Store, next: Store, mark: nat, last: nat, nextLast: nat)
    requires Holds(pages, before, now, mark) && Served(page, now, next, last, nextLast)
    requires mark <= last && forall p :: p in now ==> p <= last
    ensures Holds(pages + [page], before, next, mark)
    ensures forall i, refs :: 0 <= i < |pages| && Splits(pages[i], refs, now) ==> Splits(pages[i], refs, next)
  {
    var more := pages + [page];
    assert Points(more) == Points(pages) + [page.point];
    forall p | p in next && p !in before
      ensures Some(p) in Points(more)
    {
      if page.point == Some(p) {
        assert Points(more)[|pages|] == Some(p);
      } else {
        assert p in now && Some(p) in Points(pages);
      }
    }
  }

  lemma GiveUp(points: seq<nat>, n: nat, held: Store)
    requires n < |points| && NoRepeats(points) && points[n] in held
    ensures points[n] in held - Elems(points[..n])
    ensures (held - Elems(points[..n]))[points[n]] == held[points[n]]
    ensures held - Elems(points[..n + 1]) == held - Elems(points[..n]) - {points[n]}
  {
    assert points[..n + 1] == points[..n] + [points[n]];
  }

  /** The simulator's session: its references per node, its limits (0 for none), and the
      pages it still holds per continuation point. */
  class Server {
    const graph: map<nat, seq<Reference>>
    const maxNodes: nat    // nodes per Browse
    const maxRefs: nat     // references per page
    const maxPoints: nat   // continuation points held at once
    var held: map<nat, seq<Reference>>
    var lastPoint: nat

    constructor (graph: map<nat, seq<Reference>>, maxNodes: nat, maxRefs: nat, maxPoints: nat)
      ensures Valid() && held == map[] && this.graph == graph && this.maxNodes == maxNodes
    {
      this.graph, this.maxNodes, this.maxRefs, this.maxPoints := graph, maxNodes, maxRefs, maxPoints;
      held, lastPoint := map[], 0;
    }

    ghost predicate Valid()
      reads this
    {
      && (forall p :: p in held ==> p <= lastPoint && held[p] != [])
      && (maxPoints > 0 ==> |held| <= maxPoints)
    }

    /** The first page of `refs` and a point for the rest, if there is one to spare. */
    method Serve(refs: seq<Reference>) returns (p: Page)
      requires Valid()
      modifies this
      ensures Valid() && Served(p, old(held), held, old(lastPoint), lastPoint)
      ensures |held| == |old(held)| + if p.point.Some? then 1 else 0
      ensures p.status.Fine? ==> (maxRefs > 0 ==> |p.refs| <= maxRefs) && (p.point.Some? <==> |p.refs| < |refs|)
      ensures p.point.Some? ==> |p.refs| == maxRefs
      ensures !p.status.Fine? ==> 0 < maxRefs < |refs|
      ensures if p.status.Fine? then Splits(p, refs, held) && (refs != [] ==> p.refs != [])
              else p == Page(NoContinuationPoints, [], None) && 0 < maxPoints <= |old(held)|
    {
      if maxRefs == 0 || |refs| <= maxRefs {
        return Page(Fine, refs, None);
      }
      if 0 < maxPoints <= |held| {
        return Page(NoContinuationPoints, [], None);
      }
      lastPoint := lastPoint + 1;
      held := held[lastPoint := refs[maxRefs..]];
      p := Page(Fine, refs[..maxRefs], Some(lastPoint));
    }

    /** What a Browse page says of its node. */
    ghost predicate Answers(node: nat, page: Page, now: Store) {
      match page.status
      case Fine => node in graph && Splits(page, graph[node], now)
      case NoContinuationPoints => node in graph && page == Page(NoContinuationPoints, [], None) && maxPoints > 0
      case NodeIdUnknown => node !in graph && page == Page(NodeIdUnknown, [], None)
      case ContinuationPointInvalid => false
    }

    ghost predicate Answered(nodes: seq<nat>, pages: seq<Page>, now: Store)
      requires |pages| <= |nodes|
    {
      forall k :: 0 <= k < |pages| ==> Answers(nodes[k], pages[k], now)
    }

    /** Every node's first page. With room for every point, none is refused one. */
    method Browse(nodes: seq<nat>) returns (pages: seq<Page>)
      requires Valid() && (maxNodes == 0 || |nodes| <= maxNodes)
      modifies this
      ensures Valid() && |pages| == |nodes|
      ensures Holds(pages, old(held), held, old(lastPoint)) && Answered(nodes, pages, held)
      ensures |old(held)| + |nodes| <= maxPoints ==>
                forall k :: 0 <= k < |pages| ==> !pages[k].status.NoContinuationPoints?
    {
      pages := [];
      while |pages| < |nodes|
        invariant Valid() && |pages| <= |nodes|
        invariant |held| <= |old(held)| + |pages| && lastPoint >= old(lastPoint)
        invariant Holds(pages, old(held), held, old(lastPoint)) && Answered(nodes, pages, held)
        invariant |old(held)| + |nodes| <= maxPoints ==>
                    forall k :: 0 <= k < |pages| ==> !pages[k].status.NoContinuationPoints?
      {
        var page := BrowseNode(nodes, pages, old(held), old(lastPoint));
        pages := pages + [page];
      }
    }

    /** The next node's first page. */
    method BrowseNode(nodes: seq<nat>, pages: seq<Page>, ghost before: Store, ghost mark: nat) returns (page: Page)
      requires Valid() && |pages| < |nodes| && mark <= lastPoint
      requires Holds(pages, before, held, mark) && Answered(nodes, pages, held)
      modifies this
      ensures Valid() && lastPoint >= old(lastPoint)
      ensures |held| <= |old(held)| + 1
      ensures Holds(pages + [page], before, held, mark) && Answered(nodes, pages + [page], held)
      ensures |old(held)| < maxPoints ==> !page.status.NoContinuationPoints?
    {
      var node := nodes[|pages|];
      page := Page(NodeIdUnknown, [], None);
      if node in graph {
        page := Serve(graph[node]);
      }
      HoldsMore(pages, page, before, old(held), held, mark, old(lastPoint), lastPoint);
      AnsweredMore(nodes, pages, page, old(held), held);
    }

    lemma AnsweredMore(nodes: seq<nat>, pages: seq<Page>, page: Page, was: Store, now: Store)
      requires |pages| < |nodes| && Answered(nodes, pages, was) && Answers(nodes[|pages|], page, now)
      requires forall i, refs :: 0 <= i < |pages| && Splits(pages[i], refs, was) ==> Splits(pages[i], refs, now)
      ensures Answered(nodes, pages + [page], now)
    {
      forall k | 0 <= k < |pages|
        ensures Answers(nodes[k], pages[k], now)
      {
        assert Answers(nodes[k], pages[k], was);
      }
    }

    /** The next page at every point; each point asked for is given up. */
    method BrowseNext(points: seq<nat>) returns (pages: seq<Page>)
      requires Valid() && NoRepeats(points) && forall p :: p in points ==> p in held
      modifies this
      ensures Valid() && |pages| == |points|
      ensures Holds(pages, old(held) - Elems(points), held, old(lastPoint))
      ensures Continued(points, pages, old(held), held)
    {
      pages := [];
      assert old(held) - Elems(points[..0]) == old(held);
      while |pages| < |points|
        invariant Valid() && |pages| <= |points| && lastPoint >= old(lastPoint)
        invariant Holds(pages, old(held) - Elems(points[..|pages|]), held, old(lastPoint))
        invariant Continued(points, pages, old(held), held)
      {
        pages := Continue(points, pages, old(held), old(lastPoint));
      }
      assert points[..|pages|] == points;
    }

    /** One point more. */
    method Continue(points: seq<nat>, was: seq<Page>, ghost before: Store, ghost mark: nat) returns (pages: seq<Page>)
      requires Valid() && |was| < |points| && NoRepeats(points)
      requires forall p :: p in points ==> p in before && p <= mark
      requires mark <= lastPoint && Holds(was, before - Elems(points[..|was|]), held, mark)
      requires Continued(points, was, before, held)
      modifies this
      ensures Valid() && lastPoint >= old(lastPoint) && |pages| == |was| + 1
      ensures Holds(pages, before - Elems(points[..|pages|]), held, mark)
      ensures Continued(points, pages, before, held)
    {
      var n := |was|;
      GiveUp(points, n, before);
      ghost var left := before - Elems(points[..n]);
      var page := NextPage(points[n], was, left, mark);
      pages := was + [page];
      assert before - Elems(points[..|pages|]) == left - {points[n]};
      ContinuedMore(points, was, page, before, old(held), held);
    }

    /** The page at one point, and a new point for what is left. */
    method NextPage(point: nat, ghost pages: seq<Page>, ghost before: Store, ghost mark: nat) returns (page: Page)
      requires Valid() && point in before && point <= mark <= lastPoint
      requires Holds(pages, before, held, mark)
      modifies this
      ensures Valid() && lastPoint >= old(lastPoint)
      ensures Holds(pages + [page], before - {point}, held, mark)
      ensures Splits(page, before[point], held) && page.refs != []
      ensures forall i, refs :: 0 <= i < |pages| && Splits(pages[i], refs, old(held)) ==> Splits(pages[i], refs, held)
    {
      var refs := held[point];
      held := held - {point};
      ghost var was := held;
      page := Serve(refs);
      HoldsMore(pages, page, before - {point}, was, held, mark, old(lastPoint), lastPoint);
    }
  }

  lemma ContinuedMore(points: seq<nat>, pages: seq<Page>, page: Page, before: Store, was: Store, now: Store)
    requires |pages| < |points| && (forall p :: p in points ==> p in before) && Continued(points, pages, before, was)
    requires forall i, refs :: 0 <= i < |pages| && Splits(pages[i], refs, was) ==> Splits(pages[i], refs, now)
    requires Splits(page, before[points[|pages|]], now) && page.refs != []
    ensures Continued(points, pages + [page], before, now)
  {
    forall k | 0 <= k < |pages|
      ensures Splits(pages[k], before[points[k]], now) && pages[k].refs != []
    {
      assert Splits(pages[k], before[points[k]], was);
    }
  }

  ghost predicate Continued(points: seq<nat>, pages: seq<Page>, before: Store, now: Store)
    requires |pages| <= |points| && forall p :: p in points ==> p in before
  {
    forall k :: 0 <= k < |pages| ==> Splits(pages[k], before[points[k]], now) && pages[k].refs != []
  }
}
