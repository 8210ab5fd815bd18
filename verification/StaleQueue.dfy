/** The staleness queue itself: subscribed items in last-update order, and what touching and taking them does
    to that order. */
module StaleQueue {
  import opened Chunking

  /** An item's client handle and when it was last heard from. */
  datatype Entry = Entry(handle: nat, at: real)

  type Queue = seq<Entry>

  /** Oldest first, each handle once, nothing from the future. */
  ghost predicate Ordered(q: Queue, clock: real) {
    && (forall i, j :: 0 <= i < j < |q| ==> q[i].at <= q[j].at && q[i].handle != q[j].handle)
    && forall i :: 0 <= i < |q| ==> q[i].at <= clock
  }

  /** Where a handle's entry is, past the end if it has none. */
  function Position(q: Queue, h: nat): (n: nat)
    ensures n <= |q| && (n < |q| ==> q[n].handle == h)
    ensures forall i :: 0 <= i < n ==> q[i].handle != h
  {
    if q == [] || q[0].handle == h then 0
    else
      assert forall i :: 0 < i < |q| ==> q[i] == q[1..][i - 1];
      1 + Position(q[1..], h)
  }

  predicate Holds(q: Queue, h: nat) {
    Position(q, h) < |q|
  }

  /** The queue less one handle's entry. */
  function Without(q: Queue, h: nat): (r: Queue)
    ensures |r| == if Holds(q, h) then |q| - 1 else |q|
    ensures forall i :: 0 <= i < |r| ==> r[i] == q[if i < Position(q, h) then i else i + 1]
  {
    var n := Position(q, h);
    if n < |q| then q[..n] + q[n + 1..] else q
  }

  /** The entry set to now and moved to the end, added if it was not there. */
  function Touched(q: Queue, h: nat, now: real): Queue {
    Without(q, h) + [Entry(h, now)]
  }

  /** The handles of the first entries silent for `after`, one Read's worth at most. */
  function Due(q: Queue, now: real, after: real, chunk: nat): (due: seq<nat>)
    ensures |due| <= chunk && |due| <= |q|
    ensures forall i :: 0 <= i < |due| ==> due[i] == q[i].handle && now - q[i].at >= after
    ensures |due| < chunk && |due| < |q| ==> now - q[|due|].at < after
  {
    if q == [] || chunk == 0 || now - q[0].at < after then []
    else [q[0].handle] + Due(q[1..], now, after, chunk - 1)
  }

  /** After the Read: those still in the queue count as heard from now. */
  function Refreshed(q: Queue, due: seq<nat>, now: real): Queue
    decreases |due|
  {
    if due == [] then q
    else Refreshed(if Holds(q, due[0]) then Touched(q, due[0], now) else q, due[1..], now)
  }

  // ------------------------------------------------------------ order

  lemma TouchedHolds(q: Queue, h: nat, now: real)
    ensures forall x: nat :: Holds(Touched(q, h, now), x) <==> x == h || Holds(q, x)
  {
    var n, r := Position(q, h), Touched(q, h, now);
    assert r[|r| - 1].handle == h;
    assert forall i :: 0 <= i < |r| - 1 ==> r[i] == q[if i < n then i else i + 1];
    forall x: nat | Holds(q, x) && x != h
      ensures Holds(r, x)
    {
      var i := Position(q, x);
      assert r[if i < n then i else i - 1] == q[i];
    }
  }

  lemma TouchedOrdered(q: Queue, h: nat, clock: real, now: real)
    requires Ordered(q, clock) && clock <= now
    ensures Ordered(Touched(q, h, now), now)
  {
    WithoutOrdered(q, h, clock);
    assert !Holds(Without(q, h), h);
    var w, r := Without(q, h), Touched(q, h, now);
    assert forall i :: 0 <= i < |w| ==> r[i] == w[i];
  }

  lemma WithoutOrdered(q: Queue, h: nat, clock: real)
    requires Ordered(q, clock)
    ensures Ordered(Without(q, h), clock) && !Holds(Without(q, h), h)
  {
    var n, w := Position(q, h), Without(q, h);
    forall i, j | 0 <= i < j < |w|
      ensures w[i].at <= w[j].at && w[i].handle != w[j].handle
    {
      var k, l := if i < n then i else i + 1, if j < n then j else j + 1;
      assert w[i] == q[k] && w[j] == q[l] && k < l;
    }
    forall i | 0 <= i < |w|
      ensures w[i].handle != h
    {
      assert i >= n ==> q[n].handle != q[i + 1].handle;
    }
  }

  lemma {:induction false} RefreshedOrdered(q: Queue, due: seq<nat>, clock: real, now: real)
    requires Ordered(q, clock) && clock <= now
    ensures Ordered(Refreshed(q, due, now), now)
    decreases |due|
  {
    if due != [] {
      TouchedOrdered(q, due[0], clock, now);
      RefreshedOrdered(if Holds(q, due[0]) then Touched(q, due[0], now) else q, due[1..], now, now);
    }
  }

  /** An entry is taken exactly when it is among the first few. */
  lemma TakenIff(q: Queue, clock: real, now: real, after: real, chunk: nat, i: nat)
    requires Ordered(q, clock) && i < |q|
    ensures q[i].handle in Due(q, now, after, chunk) <==> i < |Due(q, now, after, chunk)|
  {
    var due := Due(q, now, after, chunk);
    if q[i].handle in due {
      var k :| 0 <= k < |due| && due[k] == q[i].handle;
      assert q[k].handle == q[i].handle;
    }
  }

  /** So the front run is the due set: only items silent for `after`, all of them while one Read takes them, and
      otherwise the longest silent. */
  lemma FrontRunIsDueSet(q: Queue, clock: real, now: real, after: real, chunk: nat, i: nat)
    requires Ordered(q, clock) && i < |q|
    ensures var due := Due(q, now, after, chunk);
            && (q[i].handle in due ==> now - q[i].at >= after)
            && (|due| < chunk ==> (q[i].handle in due <==> now - q[i].at >= after))
            && (forall j :: 0 <= j < |q| && q[i].handle in due && q[j].handle !in due ==> q[i].at <= q[j].at)
  {
    var due := Due(q, now, after, chunk);
    TakenIff(q, clock, now, after, chunk, i);
    forall j | 0 <= j < |q| && q[i].handle in due && q[j].handle !in due
      ensures q[i].at <= q[j].at
    {
      TakenIff(q, clock, now, after, chunk, j);
    }
  }

  /** What was heard from at `t` is not taken again before it was silent for `after`. */
  lemma NotDueAgain(q: Queue, h: nat, t: real, clock: real, now: real, after: real, chunk: nat)
    requires Ordered(q, clock) && clock <= t && now - t < after
    ensures h !in Due(Touched(q, h, t), now, after, chunk)
  {
    TouchedOrdered(q, h, clock, t);
    var r, due := Touched(q, h, t), Due(Touched(q, h, t), now, after, chunk);
    assert r[|r| - 1] == Entry(h, t);
    TakenIff(r, t, now, after, chunk, |r| - 1);
  }

  // ------------------------------------------------------------ places

  /** The handles before `x`. */
  function Before(q: Queue, x: nat): set<nat> {
    if q == [] || q[0].handle == x then {} else {q[0].handle} + Before(q[1..], x)
  }

  lemma {:induction false} BeforeAppend(a: Queue, b: Queue, x: nat)
    requires Holds(a, x)
    ensures Before(a + b, x) == Before(a, x)
  {
    assert (a + b)[0] == a[0];
    if a[0].handle != x {
      assert (a + b)[1..] == a[1..] + b;
      BeforeAppend(a[1..], b, x);
    }
  }

  /** No handle twice. */
  predicate Once(q: Queue) {
    q == [] || (!Holds(q[1..], q[0].handle) && Once(q[1..]))
  }

  lemma {:induction false} OrderedOnce(q: Queue, clock: real)
    requires Ordered(q, clock)
    ensures Once(q)
  {
    if q != [] {
      OrderedOnce(q[1..], clock);
    }
  }

  /** Others only ever move from before `x` to behind it. */
  lemma {:induction false} WithoutBefore(q: Queue, h: nat, x: nat)
    requires x != h && Once(q)
    ensures Before(Without(q, h), x) == Before(q, x) - {h}
  {
    if q != [] {
      WithoutHead(q, h);
      if q[0].handle == h {
        NotBefore(q[1..], h, x);
        Less(h, Before(q[1..], x), h);
      } else if q[0].handle != x {
        WithoutBefore(q[1..], h, x);
        BeforeCons(q[0], Without(q[1..], h), x);
        Less(q[0].handle, Before(q[1..], x), h);
      }
    }
  }

  lemma Less(a: nat, b: set<nat>, h: nat)
    ensures a != h ==> {a} + (b - {h}) == {a} + b - {h}
    ensures h !in b ==> {h} + b - {h} == b
  {}

  lemma WithoutHead(q: Queue, h: nat)
    requires q != []
    ensures Without(q, h) == if q[0].handle == h then q[1..] else [q[0]] + Without(q[1..], h)
  {}

  lemma BeforeCons(e: Entry, q: Queue, x: nat)
    requires e.handle != x
    ensures Before([e] + q, x) == {e.handle} + Before(q, x)
  {
    assert ([e] + q)[1..] == q;
  }

  lemma {:induction false} NotBefore(q: Queue, h: nat, x: nat)
    requires !Holds(q, h)
    ensures h !in Before(q, x)
  {
    if q != [] && q[0].handle != x {
      NotBefore(q[1..], h, x);
    }
  }

  /** What comes before a handle is queued, and another. */
  lemma BeforeHeld(q: Queue, x: nat, h: nat)
    requires h in Before(q, x)
    ensures Holds(q, h) && h != x
  {
    if !Holds(q, h) {
      NotBefore(q, h, x);
    }
    BeforeOthers(q, x);
  }

  lemma {:induction false} BeforeOthers(q: Queue, x: nat)
    ensures x !in Before(q, x)
  {
    if q != [] && q[0].handle != x {
      BeforeOthers(q[1..], x);
    }
  }

  lemma TouchedBefore(q: Queue, h: nat, now: real, x: nat, t: real, clock: real)
    requires Ordered(q, clock) && Entry(x, t) in q && x != h
    ensures Before(Touched(q, h, now), x) == Before(q, x) - {h} && Entry(x, t) in Touched(q, h, now)
  {
    OrderedOnce(q, clock);
    WithoutBefore(q, h, x);
    EntryStays(q, h, Entry(x, t));
    EntryHolds(Without(q, h), x, t);
    BeforeAppend(Without(q, h), [Entry(h, now)], x);
  }

  lemma EntryStays(q: Queue, h: nat, e: Entry)
    requires e in q && e.handle != h
    ensures e in Without(q, h)
  {
    var i :| 0 <= i < |q| && q[i] == e;
    var n := Position(q, h);
    assert Without(q, h)[if i < n then i else i - 1] == e;
  }

  lemma EntryHolds(q: Queue, x: nat, t: real)
    requires Entry(x, t) in q
    ensures Holds(q, x)
  {}

  lemma {:induction false} RefreshedBefore(q: Queue, due: seq<nat>, now: real, x: nat, t: real, clock: real)
    requires Ordered(q, clock) && clock <= now && Entry(x, t) in q && x !in due
    ensures Before(Refreshed(q, due, now), x) == Before(q, x) - Elems(due) && Entry(x, t) in Refreshed(q, due, now)
    decreases |due|
  {
    if due != [] {
      ElemsHead(due);
      if Holds(q, due[0]) {
        TouchedBefore(q, due[0], now, x, t, clock);
        TouchedOrdered(q, due[0], clock, now);
        RefreshedBefore(Touched(q, due[0], now), due[1..], now, x, t, now);
      } else {
        NotBefore(q, due[0], x);
        RefreshedBefore(q, due[1..], now, x, t, clock);
      }
    }
  }

  lemma ElemsHead(s: seq<nat>)
    requires s != []
    ensures Elems(s) == {s[0]} + Elems(s[1..])
  {}

  /** A due item left out of a Read has a whole Read's worth of others before it. */
  lemma {:induction false} DueBefore(q: Queue, now: real, after: real, chunk: nat, x: nat)
    requires Once(q) && Holds(q, x) && forall i :: 0 <= i <= Position(q, x) ==> now - q[i].at >= after
    ensures var due := Due(q, now, after, chunk);
            x !in due ==> Elems(due) <= Before(q, x) && |Elems(due)| == chunk
    decreases |q|
  {
    var due := Due(q, now, after, chunk);
    if chunk > 0 && x !in due {
      assert due == [q[0].handle] + Due(q[1..], now, after, chunk - 1);
      assert due[1..] == Due(q[1..], now, after, chunk - 1);
      DueBefore(q[1..], now, after, chunk - 1, x);
      NotBefore(q[1..], q[0].handle, x);
      ElemsHead(due);
    }
  }

  lemma Overtaken(q: Queue, begin: real, after: real, chunk: nat, x: nat, t: real, clock: real, left: set<nat>)
    requires Ordered(q, clock) && Entry(x, t) in q && x !in Due(q, begin, after, chunk)
    requires left <= Before(q, x) - Elems(Due(q, begin, after, chunk))
    ensures |left| <= |Before(q, x)|
    ensures begin - t >= after ==> |left| + chunk <= |Before(q, x)|
  {
    var due := Due(q, begin, after, chunk);
    Smaller(left, Before(q, x) - Elems(due));
    if begin - t >= after {
      EntryHolds(q, x, t);
      OrderedOnce(q, clock);
      SilentBefore(q, x, t, clock);
      DueBefore(q, begin, after, chunk, x);
    }
  }

  lemma SilentBefore(q: Queue, x: nat, t: real, clock: real)
    requires Ordered(q, clock) && Entry(x, t) in q
    ensures Holds(q, x) && forall i :: 0 <= i <= Position(q, x) ==> q[i].at <= t
  {
    var k :| 0 <= k < |q| && q[k] == Entry(x, t);
    assert Position(q, x) == k;
  }

  /** Taking stops at no one on the way: whoever is before a taken item is taken too. */
  lemma {:induction false} DueFromFront(q: Queue, now: real, after: real, chunk: nat, x: nat, u: nat)
    requires x in Due(q, now, after, chunk) && u in Before(q, x)
    ensures u in Due(q, now, after, chunk)
    decreases |q|
  {
    var due := Due(q, now, after, chunk);
    assert due == [q[0].handle] + Due(q[1..], now, after, chunk - 1);
    if q[0].handle != u {
      assert x in due[1..];
      DueFromFront(q[1..], now, after, chunk - 1, x, u);
    }
  }

  /** A handle touched goes behind every other. */
  lemma TouchedLast(q: Queue, x: nat, now: real, u: nat, clock: real)
    requires Ordered(q, clock) && Holds(q, u) && u != x
    ensures u in Before(Touched(q, x, now), x) && Holds(Touched(q, x, now), x)
  {
    var w := Without(q, x);
    WithoutOrdered(q, x, clock);
    TouchedHolds(q, x, now);
    var i := Position(q, u);
    EntryStays(q, x, q[i]);
    EntryHolds(w, u, q[i].at);
    BeforeEnd(w, x, now, u);
  }

  lemma {:induction false} BeforeEnd(w: Queue, x: nat, now: real, u: nat)
    requires !Holds(w, x) && Holds(w, u)
    ensures u in Before(w + [Entry(x, now)], x)
  {
    assert (w + [Entry(x, now)])[0] == w[0] && (w + [Entry(x, now)])[1..] == w[1..] + [Entry(x, now)];
    if w[0].handle != u {
      BeforeEnd(w[1..], x, now, u);
    }
  }

  /** Touching another item brings `x` forward by one place at most. */
  lemma TouchedPosition(q: Queue, h: nat, now: real, x: nat)
    requires x != h
    ensures Position(Touched(q, h, now), x) >= Position(q, x) - 1
  {
    var p: int, w, r := Position(q, x), Without(q, h), Touched(q, h, now);
    forall i: int | 0 <= i < p - 1
      ensures r[i].handle != x
    {
      assert r[i] == w[i];
    }
  }

  lemma {:induction false} RefreshedPosition(q: Queue, due: seq<nat>, now: real, x: nat)
    requires x !in due
    ensures Position(Refreshed(q, due, now), x) >= Position(q, x) - |due|
    decreases |due|
  {
    if due != [] {
      TouchedPosition(q, due[0], now, x);
      RefreshedPosition(if Holds(q, due[0]) then Touched(q, due[0], now) else q, due[1..], now, x);
    }
  }
}
