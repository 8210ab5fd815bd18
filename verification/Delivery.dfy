/**
 Notification delivery on one subscription: the Publish callback, gap recovery by
 Republish, and what both promise against an arbitrary server and against one that
 keeps every unacknowledged message.
 */
module Delivery {
  import opened Chunking

  // Republish requests per gap.
  const MAX_REPUBLISH: nat := 10

  /** The answer to one Republish request: a message bearing some number, a status
      code, or a connection error. */
  datatype Reply = Returned(seqNo: nat) | Refused | LinkDown

  /** A Publish response. A keep-alive carries no data and the number the next message will
      bear; number 0 is the client library's own status message, never the server's.
      `republish` is what the server would answer while this response is handled. */
  datatype Message = Message(seqNo: nat, hasData: bool, held: set<nat>, republish: nat -> Reply)

  /** What is known of a subscription. `delivered` and `acks` are the numbers handed to the
      sampler and those queued for acknowledgement. Numbers are accounted for from `first`,
      the number a renumbering resynced to, and in `delivered[mark..]`. */
  datatype Sub = Sub(expected: nat, stalled: bool, acks: seq<nat>, delivered: seq<nat>,
                     first: nat, mark: nat)

  const NewSub := Sub(1, false, [], [], 1, 0)

  /** The numbers lo, lo + 1, .., hi - 1. */
  function Counting(lo: nat, hi: nat): (r: seq<nat>)
    ensures |r| == if lo < hi then hi - lo else 0
    ensures forall i :: 0 <= i < |r| ==> r[i] == lo + i
  {
    if lo < hi then seq(hi - lo, i requires 0 <= i => lo + i) else []
  }

  ghost predicate Increasing(s: seq<nat>) {
    forall i, j :: 0 <= i < j < |s| ==> s[i] < s[j]
  }

  /** The missed numbers of [lo, hi) the server says it still holds, ascending. */
  function Wanted(lo: nat, hi: nat, held: set<nat>): (r: seq<nat>)
    ensures forall n :: n in r <==> lo <= n < hi && n in held
    ensures Increasing(r)
    decreases hi - lo
  {
    if lo >= hi then [] else
      var rest := Wanted(lo + 1, hi, held);
      assert forall i :: 0 <= i < |rest| ==> rest[i] in rest;
      if lo in held then [lo] + rest else rest
  }

  /** The missed numbers below `n` that the server still holds. */
  ghost function HeldBelow(lo: nat, n: nat, held: set<nat>): set<nat> {
    set k: nat | lo <= k < n && k in held
  }

  lemma {:induction false} WantedAt(lo: nat, hi: nat, held: set<nat>, i: nat)
    requires i < |Wanted(lo, hi, held)|
    ensures |HeldBelow(lo, Wanted(lo, hi, held)[i], held)| == i
    decreases hi - lo
  {
    var n := Wanted(lo, hi, held)[i];
    if lo !in held {
      WantedAt(lo + 1, hi, held, i);
      assert HeldBelow(lo, n, held) == HeldBelow(lo + 1, n, held);
    } else if i == 0 {
      assert HeldBelow(lo, n, held) == {};
    } else {
      WantedAt(lo + 1, hi, held, i - 1);
      assert n in Wanted(lo + 1, hi, held);
      assert HeldBelow(lo, n, held) == {lo} + HeldBelow(lo + 1, n, held);
    }
  }

  /** Asked for, in ascending order: each missed number that is held, unless a whole round of those is below it. */
  function Asked(lo: nat, hi: nat, held: set<nat>): (r: seq<nat>)
    ensures |r| <= MAX_REPUBLISH && Increasing(r)
    ensures forall n :: n in r <==> lo <= n < hi && n in held && |HeldBelow(lo, n, held)| < MAX_REPUBLISH
  {
    FirstWanted(lo, hi, held);
    Round(Wanted(lo, hi, held))
  }

  /** One round of requests. */
  function Round(w: seq<nat>): (r: seq<nat>)
    ensures |r| <= MAX_REPUBLISH && |r| <= |w| && r == w[..|r|]
    ensures |r| < |w| ==> |r| == MAX_REPUBLISH
  {
    if |w| <= MAX_REPUBLISH then w else w[..MAX_REPUBLISH]
  }

  lemma FirstWanted(lo: nat, hi: nat, held: set<nat>)
    ensures forall n :: n in Round(Wanted(lo, hi, held)) <==>
                          lo <= n < hi && n in held && |HeldBelow(lo, n, held)| < MAX_REPUBLISH
  {
    var w := Wanted(lo, hi, held);
    var r := Round(w);
    forall n
      ensures n in r <==> lo <= n < hi && n in held && |HeldBelow(lo, n, held)| < MAX_REPUBLISH
    {
      assert n in w <==> lo <= n < hi && n in held;
      assert n in r ==> n in w;
      if n in w {
        var i :| 0 <= i < |w| && w[i] == n;
        WantedAt(lo, hi, held, i);
        if i < |r| {
          assert r[i] == n;
        } else {
          assert forall k :: 0 <= k < |r| ==> r[k] == w[k] && w[k] < w[i];
        }
      }
    }
  }

  /** How many requests of `asked` are answered with their own number before the first that is not. */
  function Answered(asked: seq<nat>, republish: nat -> Reply): (k: nat)
    ensures k <= |asked|
    ensures forall i :: 0 <= i < k ==> republish(asked[i]) == Returned(asked[i])
    ensures k < |asked| ==> republish(asked[k]) != Returned(asked[k])
  {
    if asked == [] || republish(asked[0]) != Returned(asked[0]) then 0
    else 1 + Answered(asked[1..], republish)
  }

  /** The outcome of one gap: what came back, the number the link died on (`hi` if it
      did not), and whether a number below that end is lost. */
  datatype Gap = Gap(got: seq<nat>, end: nat, lost: bool)

  ghost function Recover(lo: nat, hi: nat, m: Message): (g: Gap)
    requires lo <= hi
    ensures lo <= g.end <= hi
    ensures Increasing(g.got) && forall n :: n in g.got ==> lo <= n < g.end
    ensures g.lost <==> exists n :: lo <= n < g.end && n !in g.got
  {
    RecoverFrom(Asked(lo, hi, m.held), lo, hi, m)
  }

  /** Once it is known what to ask for. */
  ghost function RecoverFrom(asked: seq<nat>, lo: nat, hi: nat, m: Message): (g: Gap)
    requires lo <= hi && Increasing(asked) && forall n :: n in asked ==> lo <= n < hi
    ensures lo <= g.end <= hi
    ensures Increasing(g.got) && forall n :: n in g.got ==> lo <= n < g.end
    ensures g.lost <==> exists n :: lo <= n < g.end && n !in g.got
  {
    var k := Answered(asked, m.republish);
    assert forall i :: 0 <= i < |asked| ==> asked[i] in asked;
    var end := if k < |asked| && m.republish(asked[k]).LinkDown? then asked[k] else hi;
    Gap(asked[..k], end, exists n :: lo <= n < end && n !in asked[..k])
  }

  /** The Publish callback as a function of the state and the message. */
  ghost function Publish(s: Sub, m: Message): (r: Sub) {
    if m.seqNo == 0 then s else
    if m.seqNo < s.expected then
      s.(expected := m.seqNo + (if m.hasData then 1 else 0),
         delivered := s.delivered + (if m.hasData then [m.seqNo] else []),
         first := m.seqNo, mark := |s.delivered|)
    else
      Applied(s, m, Recover(s.expected, m.seqNo, m))
  }

  /** Once the gap before it has come to `g`. */
  ghost function Applied(s: Sub, m: Message, g: Gap): Sub {
    var cut := g.end < m.seqNo;
    s.(expected := if cut then g.end else m.seqNo + (if m.hasData then 1 else 0),
       stalled := s.stalled || g.lost,
       acks := s.acks + g.got,
       delivered := s.delivered + g.got + (if !cut && m.hasData then [m.seqNo] else []))
  }

  /** The client's record of one subscription. */
  class Subscription {
    var expected: nat
    var stalled: bool
    var acks: seq<nat>
    ghost var delivered: seq<nat>
    ghost var first: nat
    ghost var mark: nat

    constructor ()
      ensures View() == NewSub
    {
      expected, stalled, acks := 1, false, [];
      delivered, first, mark := [], 1, 0;
    }

    ghost function View(): Sub
      reads this
    {
      Sub(expected, stalled, acks, delivered, first, mark)
    }

    method OnPublish(m: Message)
      modifies this
      ensures View() == Publish(old(View()), m)
    {
      if m.seqNo != 0 {
        var lo := expected;
        if m.seqNo < lo {
          first, mark := m.seqNo, |delivered|;
        }
        expected := m.seqNo + (if m.hasData then 1 else 0);
        if lo < m.seqNo {
          var done := RepublishGap(lo, m);
          if !done {
            return;
          }
        }
        if m.hasData {
          delivered := delivered + [m.seqNo];
        }
      }
    }

    /** Asks for the missed numbers one at a time; false if the link died on one. */
    method RepublishGap(lo: nat, m: Message) returns (done: bool)
      requires lo < m.seqNo
      modifies this
      ensures var g := Recover(lo, m.seqNo, m);
              && done == (g.end == m.seqNo)
              && View() == old(View()).(expected := if done then old(expected) else g.end,
                                        stalled := old(stalled) || g.lost,
                                        acks := old(acks) + g.got,
                                        delivered := old(delivered) + g.got)
    {
      var asked := Asked(lo, m.seqNo, m.held);
      var end, n := RequestEach(asked, m);
      assert n < |asked| ==> asked[n] in asked;
      var lost := AnyLost(lo, end, asked[..n]);
      stalled := stalled || lost;
      done := end == m.seqNo;
    }

    /** The requests, up to the first not answered with its own number: how many were, and where that leaves off. */
    method RequestEach(asked: seq<nat>, m: Message) returns (end: nat, n: nat)
      modifies `expected, `acks, `delivered
      ensures n == Answered(asked, m.republish)
      ensures acks == old(acks) + asked[..n] && delivered == old(delivered) + asked[..n]
      ensures if n < |asked| && m.republish(asked[n]).LinkDown? then end == expected == asked[n]
              else end == m.seqNo && expected == old(expected)
    {
      end, n := m.seqNo, 0;
      while n < |asked|
        invariant 0 <= n <= Answered(asked, m.republish)
        invariant acks == old(acks) + asked[..n] && delivered == old(delivered) + asked[..n]
        invariant end == m.seqNo && expected == old(expected)
      {
        var reply := m.republish(asked[n]);
        if reply != Returned(asked[n]) {
          if reply.LinkDown? {
            end, expected := asked[n], asked[n];
          }
          return;
        }
        assert asked[..n + 1] == asked[..n] + [asked[n]];
        acks := acks + [asked[n]];
        delivered := delivered + [asked[n]];
        n := n + 1;
      }
    }

    /** A StatusChange other than a lost link, or silence past the keep-alive deadline. */
    method Stall()
      modifies this
      ensures View() == old(View()).(stalled := true)
    {
      stalled := true;
    }
  }

  method AnyLost(lo: nat, end: nat, got: seq<nat>) returns (lost: bool)
    requires lo <= end
    ensures lost <==> exists n :: lo <= n < end && n !in got
  {
    var n := lo;
    while n < end && n in got
      invariant lo <= n <= end
      invariant forall j :: lo <= j < n ==> j in got
    {
      n := n + 1;
    }
    lost := n < end;
  }

  // ------------------------------------------------------------------ runs

  datatype Event = Response(m: Message) | Stalls

  ghost function Step(s: Sub, e: Event): Sub {
    match e
    case Response(m) => Publish(s, m)
    case Stalls => s.(stalled := true)
  }

  ghost function Run(s: Sub, events: seq<Event>): Sub
    decreases |events|
  {
    if events == [] then s else Run(Step(s, events[0]), events[1..])
  }

  /** Every number of [lo, hi) is in `s`. */
  ghost predicate Spans(s: seq<nat>, lo: nat, hi: nat) {
    forall n: nat :: lo <= n < hi ==> n in s
  }

  /** Nothing outside [lo, hi) is in `s`. */
  ghost predicate Inside(s: seq<nat>, lo: nat, hi: nat) {
    forall n :: n in s ==> lo <= n < hi
  }

  lemma SpansOn(a: seq<nat>, b: seq<nat>, lo: nat, mid: nat, hi: nat)
    requires Spans(a, lo, mid) && Spans(b, mid, hi)
    ensures Spans(a + b, lo, hi)
  {}

  /** Every number accounted for in the numbering in force reached the sampler, or the
      subscription is marked for recreation; what is queued for acknowledgement was delivered. */
  ghost predicate Accounted(s: Sub) {
    && 0 <= s.mark <= |s.delivered| && s.first <= s.expected
    && (s.stalled || Spans(s.delivered[s.mark..], s.first, s.expected))
    && Inside(s.delivered[s.mark..], s.first, s.expected)
    && (s.stalled || Spans(s.delivered, 1, s.expected))
    && forall n :: n in s.acks ==> n in s.delivered
  }

  lemma PublishAccounts(s: Sub, m: Message)
    requires Accounted(s)
    ensures Accounted(Publish(s, m))
  {
    if 0 < m.seqNo < s.expected {
      var r := Publish(s, m);
      assert r.delivered[r.mark..] == if m.hasData then [m.seqNo] else [];
    } else if 0 < m.seqNo {
      GapAccounts(s, m);
    }
  }

  lemma GapAccounts(s: Sub, m: Message)
    requires Accounted(s) && m.seqNo > 0 && s.expected <= m.seqNo
    ensures Accounted(Publish(s, m))
  {
    var r, g := Publish(s, m), Recover(s.expected, m.seqNo, m);
    var news := g.got + (if g.end == m.seqNo && m.hasData then [m.seqNo] else []);
    assert r.delivered == s.delivered + news;
    assert r.delivered[r.mark..] == s.delivered[s.mark..] + news;
    if !r.stalled {
      SpansOn(s.delivered[s.mark..], news, s.first, s.expected, r.expected);
      SpansOn(s.delivered, news, 1, s.expected, r.expected);
    }
  }

  /** No silent loss, over any run against any server. */
  lemma {:induction false} NoSilentLoss(s: Sub, events: seq<Event>)
    requires Accounted(s)
    ensures Accounted(Run(s, events))
    decreases |events|
  {
    if events != [] {
      match events[0] {
        case Response(m) => PublishAccounts(s, m);
        case Stalls =>
      }
      NoSilentLoss(Step(s, events[0]), events[1..]);
    }
  }

  lemma NewSubAccounted()
    ensures Accounted(NewSub)
  {}

  /** What was delivered in the numbering in force. */
  ghost function Since(s: Sub): seq<nat> {
    if s.mark <= |s.delivered| then s.delivered[s.mark..] else []
  }

  /** The number the last message below the one expected bore, `from` if there was none. */
  ghost function ResyncedTo(s: Sub, events: seq<Event>, from: nat): nat
    decreases |events|
  {
    if events == [] then from else
      var e := events[0];
      ResyncedTo(Step(s, e), events[1..], if e.Response? && 0 < e.m.seqNo < s.expected then e.m.seqNo else from)
  }

  lemma {:induction false} FirstIsResynced(s: Sub, events: seq<Event>)
    ensures Run(s, events).first == ResyncedTo(s, events, s.first)
    decreases |events|
  {
    if events != [] {
      FirstIsResynced(Step(s, events[0]), events[1..]);
    }
  }

  /** Accounting starts at the number a renumbering resynced to: an unstalled subscription delivered every number
      from 1 of the numbering in force exactly when no message was below the one expected, or the last that was
      bore number 1. */
  lemma WholeNumberingIff(events: seq<Event>)
    requires !Run(NewSub, events).stalled
    ensures var s := Run(NewSub, events);
            (forall n :: 1 <= n < s.expected ==> n in Since(s)) <==> ResyncedTo(NewSub, events, 1) <= 1
  {
    var s := Run(NewSub, events);
    NewSubAccounted();
    NoSilentLoss(NewSub, events);
    FirstIsResynced(NewSub, events);
    if s.first > 1 {
      assert 1 !in Since(s);
    }
  }

  /** A renumbered server whose new message 1 is lost: message 2 resyncs without a stall. */
  lemma RenumberingHidesLoss(m1: Message, m2: Message, again: Message)
    requires m1.seqNo == 1 && m2.seqNo == 2 && again.seqNo == 2
    requires m1.hasData && m2.hasData && again.hasData
    ensures var s := Run(NewSub, [Response(m1), Response(m2), Response(again)]);
            !s.stalled && s.expected == 3 && s.mark == 2 && s.delivered == [1, 2, 2]
  {
    var s1 := Publish(NewSub, m1);
    NoGap(NewSub, m1);
    var s2 := Publish(s1, m2);
    NoGap(s1, m2);
    assert s2.delivered == [1, 2] && s2.expected == 3;
    RunOne(NewSub, Response(m1), [Response(m2), Response(again)]);
    RunOne(s1, Response(m2), [Response(again)]);
    RunOne(s2, Response(again), []);
  }

  lemma RunOne(s: Sub, e: Event, rest: seq<Event>)
    ensures Run(s, [e] + rest) == Run(Step(s, e), rest)
  {
    assert ([e] + rest)[1..] == rest;
  }

  /** The message expected is delivered as it comes. */
  lemma NoGap(s: Sub, m: Message)
    requires m.hasData && 0 < m.seqNo == s.expected
    ensures Publish(s, m) == s.(expected := m.seqNo + 1, delivered := s.delivered + [m.seqNo])
  {
    var asked := Asked(m.seqNo, m.seqNo, m.held);
    assert forall i :: 0 <= i < |asked| ==> asked[i] in asked;
    var g := Recover(m.seqNo, m.seqNo, m);
    assert g.got == [] && g.end == m.seqNo;
    assert s.acks + [] == s.acks && s.delivered + [] == s.delivered;
  }

  // ---------------------------------------------------------------- what one response does

  /** The number is asked for again and comes back: it is held, less than a round of held numbers is missed below it,
      and it and those are answered with their own numbers. */
  ghost predicate ComesBack(lo: nat, m: Message, n: nat) {
    && lo <= n < m.seqNo && n in m.held && |HeldBelow(lo, n, m.held)| < MAX_REPUBLISH
    && forall k: nat :: lo <= k <= n && k in m.held ==> m.republish(k) == Returned(k)
  }

  /** The link goes on it. */
  ghost predicate CutAt(lo: nat, m: Message, n: nat) {
    && lo <= n < m.seqNo && n in m.held && |HeldBelow(lo, n, m.held)| < MAX_REPUBLISH
    && m.republish(n).LinkDown?
    && forall k: nat :: lo <= k < n && k in m.held ==> m.republish(k) == Returned(k)
  }

  lemma FewerBelow(lo: nat, k: nat, n: nat, held: set<nat>)
    requires k <= n
    ensures |HeldBelow(lo, k, held)| <= |HeldBelow(lo, n, held)|
  {
    Smaller(HeldBelow(lo, k, held), HeldBelow(lo, n, held));
  }

  lemma RecoverMeans(lo: nat, m: Message)
    requires lo <= m.seqNo
    ensures var g := Recover(lo, m.seqNo, m);
            && (forall n :: n in g.got <==> ComesBack(lo, m, n))
            && (g.end < m.seqNo ==> CutAt(lo, m, g.end))
            && (forall n :: CutAt(lo, m, n) ==> g.end == n)
  {
    var asked := Asked(lo, m.seqNo, m.held);
    var k := Answered(asked, m.republish);
    assert forall i :: 0 <= i < |asked| ==> asked[i] in asked;
    forall n
      ensures n in asked[..k] <==> ComesBack(lo, m, n)
      ensures CutAt(lo, m, n) <==> k < |asked| && asked[k] == n && m.republish(n).LinkDown?
    {
      if n in asked {
        var i := Where(asked, n, k);
        AskedAt(lo, m, asked, k, i);
      }
    }
  }

  lemma Where(s: seq<nat>, n: nat, k: nat) returns (i: nat)
    requires n in s && k <= |s| && Increasing(s)
    ensures i < |s| && s[i] == n && (n in s[..k] <==> i < k)
    ensures forall j :: 0 <= j < |s| && s[j] == n ==> j == i
  {
    i :| 0 <= i < |s| && s[i] == n;
    assert i < k ==> s[..k][i] == n;
  }

  ghost predicate AllReturned(s: seq<nat>, republish: nat -> Reply) {
    forall j :: j in s ==> republish(j) == Returned(j)
  }

  lemma AskedAt(lo: nat, m: Message, asked: seq<nat>, k: nat, i: nat)
    requires lo <= m.seqNo && asked == Asked(lo, m.seqNo, m.held) && k == Answered(asked, m.republish) && i < |asked|
    ensures ComesBack(lo, m, asked[i]) <==> i < k
    ensures CutAt(lo, m, asked[i]) <==> i == k && m.republish(asked[i]).LinkDown?
  {
    var n := asked[i];
    assert n in asked;
    forall j: nat | lo <= j <= n && j in m.held
      ensures j in asked[..i + 1] && (j < n ==> j in asked[..i])
    {
      HeldAt(lo, m, asked, i, j);
    }
    forall j | j in asked[..i + 1] || j in asked[..i]
      ensures lo <= j <= n && j in m.held && (j in asked[..i] ==> j < n)
    {
      HeldAt(lo, m, asked, i, j);
    }
    assert ComesBack(lo, m, n) <==> AllReturned(asked[..i + 1], m.republish);
    assert CutAt(lo, m, n) <==> AllReturned(asked[..i], m.republish) && m.republish(n).LinkDown?;
    assert i < k ==> m.republish(n) == Returned(n);
  }

  /** The held numbers up to one asked for are those asked for so far. */
  lemma HeldAt(lo: nat, m: Message, asked: seq<nat>, i: nat, j: nat)
    requires lo <= m.seqNo && asked == Asked(lo, m.seqNo, m.held) && i < |asked|
    ensures lo <= j <= asked[i] && j in m.held <==> j in asked[..i + 1]
    ensures lo <= j < asked[i] && j in m.held <==> j in asked[..i]
  {
    UpTo(asked, i);
    if lo <= j <= asked[i] && j in m.held {
      var x := AskedFirst(lo, m, asked, i, j);
    }
    assert j in asked ==> lo <= j && j in m.held;
  }

  lemma UpTo(s: seq<nat>, i: nat)
    requires i < |s| && Increasing(s)
    ensures forall j :: j in s[..i + 1] ==> j in s && j <= s[i]
    ensures forall j :: j in s[..i] ==> j in s && j < s[i]
  {}

  /** A held number below one asked for is asked for before it. */
  lemma AskedFirst(lo: nat, m: Message, asked: seq<nat>, i: nat, j: nat) returns (x: nat)
    requires lo <= m.seqNo && asked == Asked(lo, m.seqNo, m.held)
    requires i < |asked| && lo <= j <= asked[i] && j in m.held
    ensures x <= i && asked[x] == j
  {
    assert asked[i] in asked;
    FewerBelow(lo, j, asked[i], m.held);
    x :| 0 <= x < |asked| && asked[x] == j;
    assert forall y :: i < y < |asked| ==> asked[i] < asked[y];
  }

  /** What a response adds: to the sampler, and to the acknowledgements to send. */
  ghost function News(s: Sub, m: Message): seq<nat> {
    var r := Publish(s, m);
    if |s.delivered| <= |r.delivered| then r.delivered[|s.delivered|..] else []
  }

  ghost predicate Cut(s: Sub, m: Message) {
    exists k :: CutAt(s.expected, m, k)
  }

  /** A response at or past the number expected: the missed numbers that come back reach the sampler, and they alone
      are queued for acknowledgement, then its own unless the link goes first; the next number expected is the one
      the link went on, else the one after; stalled is what was, or a number skipped for good. */
  lemma PublishMeans(s: Sub, m: Message)
    requires 0 < m.seqNo && s.expected <= m.seqNo
    ensures var r, news := Publish(s, m), News(s, m);
            && r.delivered == s.delivered + news && Increasing(news)
            && (forall n :: n in news <==> ComesBack(s.expected, m, n) || (n == m.seqNo && m.hasData && !Cut(s, m)))
            && s.acks <= r.acks
            && news == r.acks[|s.acks|..] + (if m.hasData && !Cut(s, m) then [m.seqNo] else [])
            && (forall k :: CutAt(s.expected, m, k) ==> r.expected == k)
            && (!Cut(s, m) ==> r.expected == m.seqNo + if m.hasData then 1 else 0)
            && (r.stalled <==> s.stalled || exists n: nat :: s.expected <= n < r.expected && n < m.seqNo && n !in news)
  {
    var g := Recover(s.expected, m.seqNo, m);
    RecoverMeans(s.expected, m);
    assert Cut(s, m) <==> g.end < m.seqNo;
    AppliedMeans(s, m, g, News(s, m));
  }

  lemma AppliedMeans(s: Sub, m: Message, g: Gap, news: seq<nat>)
    requires s.expected <= g.end <= m.seqNo && Increasing(g.got) && forall n :: n in g.got ==> n < g.end
    requires g.lost <==> exists n :: s.expected <= n < g.end && n !in g.got
    requires news == Applied(s, m, g).delivered[|s.delivered|..]
    ensures var r, own := Applied(s, m, g), g.end == m.seqNo && m.hasData;
            && r.delivered == s.delivered + news && Increasing(news)
            && (forall n :: n in news <==> n in g.got || (n == m.seqNo && own))
            && s.acks <= r.acks && news == r.acks[|s.acks|..] + (if own then [m.seqNo] else [])
            && (r.stalled <==> s.stalled || exists n: nat :: s.expected <= n < r.expected && n < m.seqNo && n !in news)
  {
    var own := if g.end == m.seqNo && m.hasData then [m.seqNo] else [];
    assert news == g.got + own;
    IncreasingAppend(g.got, own, g.end);
  }

  /** A response below it starts the numbering over at its own number; number 0 is nobody's. */
  lemma ResyncMeans(s: Sub, m: Message)
    requires m.seqNo < s.expected
    ensures var r := Publish(s, m);
            && r.delivered == s.delivered + (if 0 < m.seqNo && m.hasData then [m.seqNo] else [])
            && r.expected == (if m.seqNo == 0 then s.expected else if m.hasData then m.seqNo + 1 else m.seqNo)
            && r.acks == s.acks && r.stalled == s.stalled
  {}

  // ------------------------------------------------------- exactly once, in order

  /** The server never sends a number below the one expected. */
  ghost predicate NeverBelow(s: Sub, events: seq<Event>)
    decreases |events|
  {
    events == [] ||
    (&& (events[0].Response? ==> events[0].m.seqNo == 0 || s.expected <= events[0].m.seqNo)
     && NeverBelow(Step(s, events[0]), events[1..]))
  }

  ghost predicate InOrder(s: Sub) {
    && Increasing(s.delivered)
    && forall n :: n in s.delivered ==> n < s.expected
  }

  /** Delivered numbers are strictly increasing, direct and Republished alike, across gaps cut by a
      lost link and asked for again. */
  lemma {:induction false} ExactlyOnceInOrder(s: Sub, events: seq<Event>)
    requires InOrder(s) && NeverBelow(s, events)
    ensures InOrder(Run(s, events))
    decreases |events|
  {
    if events != [] {
      match events[0] {
        case Response(m) => PublishInOrder(s, m);
        case Stalls =>
      }
      ExactlyOnceInOrder(Step(s, events[0]), events[1..]);
    }
  }

  lemma IncreasingAppend(a: seq<nat>, b: seq<nat>, bound: nat)
    requires Increasing(a) && forall n :: n in a ==> n < bound
    requires Increasing(b) && forall n :: n in b ==> bound <= n
    ensures Increasing(a + b)
  {
    forall i, j | 0 <= i < j < |a + b|
      ensures (a + b)[i] < (a + b)[j]
    {
      if i < |a| <= j {
        assert a[i] in a && b[j - |a|] in b;
      }
    }
  }

  lemma PublishInOrder(s: Sub, m: Message)
    requires InOrder(s)
    requires m.seqNo == 0 || s.expected <= m.seqNo
    ensures InOrder(Publish(s, m))
  {
    if m.seqNo != 0 {
      var g := Recover(s.expected, m.seqNo, m);
      var tail := if g.end == m.seqNo && m.hasData then [m.seqNo] else [];
      IncreasingAppend(s.delivered, g.got, s.expected);
      IncreasingAppend(s.delivered + g.got, tail, g.end);
      assert Publish(s, m).delivered == s.delivered + g.got + tail;
    }
  }

  // ------------------------------------------------------ a server that keeps everything

  /** A server that drops a message only once it is acknowledged: `sent` were sent, `held` it keeps. */
  datatype System = System(sub: Sub, sent: nat, held: set<nat>)

  /** What happens: a message is sent, or a keep-alive, and arrives or is lost; delivered messages
      are acknowledged. Republish answers with what is held, or the link goes. */
  datatype Move =
    | Notify(arrives: bool, republish: nat -> Reply)
    | KeepAlive(arrives: bool, republish: nat -> Reply)
    | Acknowledge(seqNos: set<nat>)

  const NewSystem := System(NewSub, 0, {})

  ghost predicate Allowed(s: System, v: Move) {
    match v
    case Acknowledge(seqNos) => forall n :: n in seqNos ==> n in s.sub.delivered
    case Notify(arrives, republish) => arrives ==> Faithful(s, republish)
    case KeepAlive(arrives, republish) => arrives ==> Faithful(s, republish)
  }

  /** Republish fails only because the link is gone, and the gap is within one round of requests. */
  ghost predicate Faithful(s: System, republish: nat -> Reply) {
    && (forall n :: n in s.held ==> republish(n) == Returned(n) || republish(n).LinkDown?)
    && s.sent + 1 <= s.sub.expected + MAX_REPUBLISH
  }

  ghost function Arrival(s: System, v: Move): Message
    requires !v.Acknowledge?
  {
    var n := s.sent + 1;
    if v.Notify? then Message(n, true, s.held + {n}, v.republish) else Message(n, false, s.held, v.republish)
  }

  ghost function Moved(s: System, v: Move): System {
    if v.Acknowledge? then s.(held := s.held - v.seqNos) else
      var m := Arrival(s, v);
      System(if v.arrives then Publish(s.sub, m) else s.sub,
             if v.Notify? then s.sent + 1 else s.sent,
             m.held)
  }

  ghost function Moves(s: System, moves: seq<Move>): System
    decreases |moves|
  {
    if moves == [] then s else Moves(Moved(s, moves[0]), moves[1..])
  }

  ghost predicate AllAllowed(s: System, moves: seq<Move>)
    decreases |moves|
  {
    moves == [] || (Allowed(s, moves[0]) && AllAllowed(Moved(s, moves[0]), moves[1..]))
  }

  /** Every message up to `expected` was delivered once and in order, the rest are still held. */
  ghost predicate Recovering(s: System) {
    && !s.sub.stalled && 1 <= s.sub.expected <= s.sent + 1
    && s.sub.delivered == Counting(1, s.sub.expected)
    && forall n :: s.sub.expected <= n <= s.sent ==> n in s.held
  }

  lemma {:induction false} WantedAll(lo: nat, hi: nat, held: set<nat>)
    requires lo <= hi && forall n :: lo <= n < hi ==> n in held
    ensures Wanted(lo, hi, held) == Counting(lo, hi)
    decreases hi - lo
  {
    if lo < hi {
      WantedAll(lo + 1, hi, held);
      assert Counting(lo, hi) == [lo] + Counting(lo + 1, hi);
    }
  }

  /** A held gap is recovered from its start up to where the link goes, nothing lost. */
  lemma HeldGap(lo: nat, hi: nat, m: Message)
    requires lo <= hi <= lo + MAX_REPUBLISH
    requires forall n :: lo <= n < hi ==> n in m.held
    requires forall n :: lo <= n < hi ==> m.republish(n) == Returned(n) || m.republish(n).LinkDown?
    ensures var g := Recover(lo, hi, m); !g.lost && g.got == Counting(lo, g.end)
    ensures (forall n :: lo <= n < hi ==> m.republish(n) == Returned(n)) ==> Recover(lo, hi, m).end == hi
  {
    AllAsked(lo, hi, m);
    HeldGapFrom(Counting(lo, hi), lo, hi, m);
  }

  lemma HeldGapFrom(asked: seq<nat>, lo: nat, hi: nat, m: Message)
    requires lo <= hi && asked == Counting(lo, hi)
    requires forall n :: lo <= n < hi ==> m.republish(n) == Returned(n) || m.republish(n).LinkDown?
    ensures var g := RecoverFrom(asked, lo, hi, m); !g.lost && g.got == Counting(lo, g.end)
    ensures (forall n :: lo <= n < hi ==> m.republish(n) == Returned(n)) ==> RecoverFrom(asked, lo, hi, m).end == hi
  {
    var k := Answered(asked, m.republish);
    assert k < |asked| ==> asked[k] == lo + k && lo <= asked[k] < hi;
    assert RecoverFrom(asked, lo, hi, m).end == lo + k;
    assert asked[..k] == Counting(lo, lo + k);
    CountingSpans(lo, lo + k);
  }

  /** A gap within one round is asked for whole. */
  lemma AllAsked(lo: nat, hi: nat, m: Message)
    requires lo <= hi <= lo + MAX_REPUBLISH && forall n :: lo <= n < hi ==> n in m.held
    ensures Asked(lo, hi, m.held) == Counting(lo, hi)
  {
    WantedAll(lo, hi, m.held);
  }

  lemma CountingSpans(lo: nat, hi: nat)
    ensures Spans(Counting(lo, hi), lo, hi)
  {
    forall n: nat | lo <= n < hi
      ensures n in Counting(lo, hi)
    {
      assert Counting(lo, hi)[n - lo] == n;
    }
  }

  lemma CountingOn(a: nat, b: nat, c: nat)
    requires a <= b <= c
    ensures Counting(a, b) + Counting(b, c) == Counting(a, c)
  {}

  /** With the gap recovered from its start, delivered stays a count from 1. */
  lemma PublishCounts(s: Sub, m: Message, g: Gap)
    requires 1 <= s.expected <= g.end <= m.seqNo && s.delivered == Counting(1, s.expected)
    requires g.got == Counting(s.expected, g.end)
    ensures Applied(s, m, g).delivered == Counting(1, Applied(s, m, g).expected)
  {
    CountingOn(1, s.expected, g.end);
    if g.end == m.seqNo && m.hasData {
      CountingOn(1, m.seqNo, m.seqNo + 1);
      assert Counting(m.seqNo, m.seqNo + 1) == [m.seqNo];
    }
  }

  lemma MoveRecovers(s: System, v: Move)
    requires Recovering(s) && Allowed(s, v)
    ensures Recovering(Moved(s, v))
    ensures !v.Acknowledge? && v.arrives && (forall n :: n in s.held ==> v.republish(n) == Returned(n))
            ==> Moved(s, v).sub.expected == Moved(s, v).sent + 1
  {
    if v.Acknowledge? {
      forall n | s.sub.expected <= n <= s.sent
        ensures n !in v.seqNos
      {
        assert n !in s.sub.delivered;
      }
    } else if v.arrives {
      var m := Arrival(s, v);
      HeldGap(s.sub.expected, m.seqNo, m);
      PublishCounts(s.sub, m, Recover(s.sub.expected, m.seqNo, m));
    }
  }

  /** Full recovery, over any number of losses, cuts and resumes: delivered is exactly 1 .. expected - 1,
      each once and in order, and nothing stalls. */
  lemma {:induction false} FullRecovery(s: System, moves: seq<Move>)
    requires Recovering(s) && AllAllowed(s, moves)
    ensures Recovering(Moves(s, moves))
    decreases |moves|
  {
    if moves != [] {
      MoveRecovers(s, moves[0]);
      FullRecovery(Moved(s, moves[0]), moves[1..]);
    }
  }

  lemma NewSystemRecovering()
    ensures Recovering(NewSystem)
  {}

  /** The bound on the gap is exact: with every missed number held and answered, the subscription
      stalls exactly when the gap is longer than one round of requests. */
  lemma StallsIffGapTooLong(s: Sub, m: Message)
    requires !s.stalled && 0 < s.expected <= m.seqNo
    requires forall n :: s.expected <= n < m.seqNo ==> n in m.held && m.republish(n) == Returned(n)
    ensures Publish(s, m).stalled <==> m.seqNo - s.expected > MAX_REPUBLISH
  {
    if m.seqNo - s.expected <= MAX_REPUBLISH {
      HeldGap(s.expected, m.seqNo, m);
    } else {
      WantedAll(s.expected, m.seqNo, m.held);
      var asked := Asked(s.expected, m.seqNo, m.held);
      assert |asked| == MAX_REPUBLISH;
      var missed := s.expected + MAX_REPUBLISH;
      assert missed !in asked;
      var k := Answered(asked, m.republish);
      assert k == |asked|;
      assert missed !in Recover(s.expected, m.seqNo, m).got;
    }
  }
}
