/**
 The staleness sweep: which items it re-reads under every interleaving of publishes, results, sweeps and
 recreates, when it stops reading for good, and how late a silent item can be re-read.
 */
module Staleness {
  import opened Chunking
  import opened Periods
  import opened StaleQueue

  // Sweeps per staleness period, at least.
  const SWEEP_STEPS: nat := 4

  /** The queue and the items subscribed, as the connection keeps them. */
  datatype State = State(q: Queue, monitored: set<nat>)
  {
    /** The queue names monitored items only. */
    ghost predicate Tracked() {
      forall h: nat :: Holds(q, h) ==> h in monitored
    }

    /** The sweep looks up every item it takes: one no longer monitored fails it. */
    predicate Raises(due: seq<nat>) {
      exists h :: h in due && h !in monitored
    }
  }

  const Empty := State([], {})

  /** What touches them besides the sweep: an item about to be created, its result, a publish, everything moved
      to polling. */
  datatype Note =
    | Registered(handle: nat)
    | Accepted(handle: nat, at: real)
    | Refused(handle: nat)
    | Heard(handle: nat, at: real)
    | Emptied

  /** A published value counts only for a monitored item. */
  predicate Touches(s: State, note: Note) {
    note.Accepted? || (note.Heard? && note.handle in s.monitored)
  }

  function Noted(s: State, note: Note): State {
    match note
    case Registered(h) => s.(monitored := s.monitored + {h})
    case Accepted(h, at) => s.(q := Touched(s.q, h, at))
    case Refused(h) => s.(monitored := s.monitored - {h})
    case Heard(h, at) => if h in s.monitored then s.(q := Touched(s.q, h, at)) else s
    case Emptied => Empty
  }

  class Sweeper {
    var stale: Queue
    var monitored: set<nat>
    const chunk: nat
    const after: real

    constructor (chunk: nat, after: real)
      requires chunk > 0 && after > 0.0
      ensures View() == Empty && this.chunk == chunk && this.after == after
    {
      stale, monitored := [], {};
      this.chunk, this.after := chunk, after;
    }

    function View(): State
      reads this
    {
      State(stale, monitored)
    }

    method MoveToEnd(h: nat, now: real)
      modifies `stale
      ensures stale == Touched(old(stale), h, now)
    {
      stale := Without(stale, h) + [Entry(h, now)];
    }

    /** Before the request: the initial values can be published before its reply. */
    method Register(h: nat)
      modifies this
      ensures View() == Noted(old(View()), Registered(h))
    {
      monitored := monitored + {h};
    }

    /** The result of creating one item. The queue still names monitored items only, exactly unless the server
        had published a value of an item it now refuses. */
    method Confirm(h: nat, good: bool, now: real)
      requires h in monitored
      modifies this
      ensures View() == Noted(old(View()), if good then Accepted(h, now) else Refused(h))
      ensures old(View().Tracked()) ==> (View().Tracked() <==> good || !old(Holds(stale, h)))
    {
      if good {
        MoveToEnd(h, now);
        TouchedHolds(old(stale), h, now);
      } else {
        monitored := monitored - {h};
      }
    }

    /** A data change. */
    method Deliver(h: nat, now: real)
      modifies this
      ensures View() == Noted(old(View()), Heard(h, now))
      ensures old(View().Tracked()) ==> View().Tracked()
    {
      if h in monitored {
        MoveToEnd(h, now);
        TouchedHolds(old(stale), h, now);
      }
    }

    /** The items to re-read, the front of the queue, without a scan; the lookup fails if one of them is no
        longer monitored. */
    method BeginSweep(now: real) returns (due: seq<nat>, raised: bool)
      ensures due == Due(stale, now, after, chunk)
      ensures raised == View().Raises(due)
    {
      due, raised := [], false;
      var i := 0;
      while i < |stale| && i < chunk && now - stale[i].at >= after
        invariant 0 <= i <= |stale| && i <= chunk && |due| == i
        invariant forall k :: 0 <= k < i ==> due[k] == stale[k].handle && now - stale[k].at >= after
        invariant raised <==> exists h :: h in due && h !in monitored
      {
        due := due + [stale[i].handle];
        raised := raised || stale[i].handle !in monitored;
        i := i + 1;
      }
      assert |Due(stale, now, after, chunk)| == i;
    }

    method EndSweep(due: seq<nat>, now: real)
      modifies `stale
      ensures stale == Refreshed(old(stale), due, now)
    {
      var i := 0;
      while i < |due|
        invariant 0 <= i <= |due|
        invariant Refreshed(old(stale), due, now) == Refreshed(stale, due[i..], now)
      {
        assert due[i..][1..] == due[i + 1..];
        if Holds(stale, due[i]) {
          MoveToEnd(due[i], now);
        }
        i := i + 1;
      }
    }

    /** Everything moved to polling. */
    method Clear()
      modifies this
      ensures View() == Noted(old(View()), Emptied)
    {
      stale, monitored := [], {};
    }
  }

  // ------------------------------------------------------------ runs

  /** A sweep awaits its Read, so anything may happen between its two halves; sweeps never overlap. */
  datatype Event = One(note: Note) | Sweep(begin: real, during: seq<Note>, end: real)

  function AllNoted(s: State, notes: seq<Note>): State
    decreases |notes|
  {
    if notes == [] then s else AllNoted(Noted(s, notes[0]), notes[1..])
  }

  /** A sweep that cannot look up what it took reads nothing. */
  function Step(s: State, e: Event, after: real, chunk: nat): State {
    match e
    case One(note) => Noted(s, note)
    case Sweep(begin, during, end) =>
      var due, mid := Due(s.q, begin, after, chunk), AllNoted(s, during);
      if s.Raises(due) then mid else mid.(q := Refreshed(mid.q, due, end))
  }

  function Run(s: State, events: seq<Event>, after: real, chunk: nat): State
    decreases |events|
  {
    if events == [] then s else Run(Step(s, events[0], after, chunk), events[1..], after, chunk)
  }

  /** Time never goes back: the clock after a note, some notes, an event. */
  function Ticked(clock: real, note: Note): real {
    if note.Heard? || note.Accepted? then note.at else clock
  }

  function Clock(clock: real, notes: seq<Note>): real
    decreases |notes|
  {
    if notes == [] then clock else Clock(Ticked(clock, notes[0]), notes[1..])
  }

  predicate Forward(clock: real, notes: seq<Note>)
    decreases |notes|
  {
    notes == [] || (clock <= Ticked(clock, notes[0]) && Forward(Ticked(clock, notes[0]), notes[1..]))
  }

  function After(clock: real, e: Event): real {
    match e
    case One(note) => Ticked(clock, note)
    case Sweep(_, _, end) => end
  }

  predicate Timed(clock: real, e: Event) {
    match e
    case One(note) => clock <= Ticked(clock, note)
    case Sweep(begin, during, end) => clock <= begin && Forward(begin, during) && Clock(begin, during) <= end
  }

  predicate AllTimed(clock: real, events: seq<Event>)
    decreases |events|
  {
    events == [] || (Timed(clock, events[0]) && AllTimed(After(clock, events[0]), events[1..]))
  }

  function Ending(clock: real, events: seq<Event>): real
    decreases |events|
  {
    if events == [] then clock else Ending(After(clock, events[0]), events[1..])
  }

  lemma NoteOrdered(s: State, note: Note, clock: real)
    requires Ordered(s.q, clock) && clock <= Ticked(clock, note)
    ensures Ordered(Noted(s, note).q, Ticked(clock, note))
  {
    if Touches(s, note) {
      TouchedOrdered(s.q, note.handle, clock, note.at);
    }
  }

  lemma {:induction false} NotesOrdered(s: State, notes: seq<Note>, clock: real)
    requires Ordered(s.q, clock) && Forward(clock, notes)
    ensures Ordered(AllNoted(s, notes).q, Clock(clock, notes)) && clock <= Clock(clock, notes)
    decreases |notes|
  {
    if notes != [] {
      NoteOrdered(s, notes[0], clock);
      NotesOrdered(Noted(s, notes[0]), notes[1..], Ticked(clock, notes[0]));
    }
  }

  lemma StepOrdered(s: State, e: Event, clock: real, after: real, chunk: nat)
    requires Ordered(s.q, clock) && Timed(clock, e)
    ensures Ordered(Step(s, e, after, chunk).q, After(clock, e))
  {
    match e {
      case One(note) => NoteOrdered(s, note, clock);
      case Sweep(begin, during, end) =>
        NotesOrdered(s, during, begin);
        RefreshedOrdered(AllNoted(s, during).q, Due(s.q, begin, after, chunk), Clock(begin, during), end);
    }
  }

  /** The queue stays in last-update order, each item once, whatever is published, created, refused, swept or
      emptied, and in whatever order. */
  lemma {:induction false} StaysOrdered(s: State, events: seq<Event>, clock: real, after: real, chunk: nat)
    requires Ordered(s.q, clock) && AllTimed(clock, events)
    ensures Ordered(Run(s, events, after, chunk).q, Ending(clock, events))
    decreases |events|
  {
    if events != [] {
      StepOrdered(s, events[0], clock, after, chunk);
      StaysOrdered(Step(s, events[0], after, chunk), events[1..], After(clock, events[0]), after, chunk);
    }
  }

  /** A sweep that reads an item stamps it when the Read is done, if it is still queued. */
  lemma {:induction false} ReadStamps(q: Queue, due: seq<nat>, x: nat, clock: real, end: real)
    requires Ordered(q, clock) && clock <= end && Holds(q, x)
    ensures var r := Refreshed(q, due, end); Holds(r, x) && r[Position(r, x)].at == if x in due then end else q[Position(q, x)].at
    decreases |due|
  {
    if due != [] {
      var next := if Holds(q, due[0]) then Touched(q, due[0], end) else q;
      TouchedHolds(q, due[0], end);
      TouchedOrdered(q, due[0], clock, end);
      TouchedStamps(q, due[0], end, x, clock);
      ReadStamps(next, due[1..], x, end, end);
      assert x in due <==> x == due[0] || x in due[1..];
    }
  }

  lemma TouchedStamps(q: Queue, h: nat, now: real, x: nat, clock: real)
    requires Ordered(q, clock) && clock <= now && Holds(q, x)
    ensures var r := Touched(q, h, now); Holds(r, x) && r[Position(r, x)].at == if x == h then now else q[Position(q, x)].at
  {
    var r := Touched(q, h, now);
    TouchedHolds(q, h, now);
    TouchedOrdered(q, h, clock, now);
    if x == h {
      assert r[|r| - 1] == Entry(h, now);
    } else {
      EntryStays(q, h, q[Position(q, x)]);
      assert q[Position(q, x)] in r;
      var i :| 0 <= i < |r| && r[i] == q[Position(q, x)];
      assert i == Position(r, x);
    }
  }

  /** An item accepted, new or recreated, or heard from while monitored, is queued as heard from then; a note touches no
      other, but for what moves everything to polling. */
  lemma NotedMeans(s: State, note: Note, x: nat, clock: real)
    requires Ordered(s.q, clock) && clock <= Ticked(clock, note)
    ensures var r, touched := Noted(s, note), (note.Accepted? || (note.Heard? && x in s.monitored)) && note.handle == x;
            && (touched ==> Holds(r.q, x) && r.q[Position(r.q, x)].at == note.at)
            && (!touched && !note.Emptied? ==> (Holds(r.q, x) <==> Holds(s.q, x))
                                               && (Holds(s.q, x) ==> r.q[Position(r.q, x)].at == s.q[Position(s.q, x)].at))
            && (x in r.monitored <==> !note.Emptied? && (x in s.monitored || note == Registered(x)) && note != Refused(x))
  {
    if Touches(s, note) {
      TouchedHolds(s.q, note.handle, note.at);
      if Holds(s.q, x) {
        TouchedStamps(s.q, note.handle, note.at, x, clock);
      } else if note.handle == x {
        var r := Touched(s.q, x, note.at);
        TouchedOrdered(s.q, x, clock, note.at);
        assert r[|r| - 1] == Entry(x, note.at);
      }
    }
  }

  /** With everything moved to polling nothing is queued, whatever is still published, until an item is registered. */
  lemma {:induction false} NothingAfterEmptied(s: State, notes: seq<Note>)
    requires forall i :: 0 <= i < |notes| ==> notes[i].Heard? || notes[i].Refused? || notes[i].Emptied?
    ensures AllNoted(Noted(s, Emptied), notes) == Empty
    decreases |notes|
  {
    if notes != [] {
      assert Noted(Empty, notes[0]) == Empty;
      assert Noted(Noted(s, Emptied), notes[0]) == Noted(s, Emptied) == Empty;
      NothingAfterEmptied(s, notes[1..]);
    }
  }

  // ------------------------------------------------------------ the lookup

  /** The server answers in order: it refuses no item it has published or accepted before, and accepts only what
      is registered. */
  predicate Orderly(s: State, note: Note) {
    && (note.Refused? ==> !Holds(s.q, note.handle))
    && (note.Accepted? ==> note.handle in s.monitored)
  }

  predicate AllOrderly(s: State, notes: seq<Note>)
    decreases |notes|
  {
    notes == [] || (Orderly(s, notes[0]) && AllOrderly(Noted(s, notes[0]), notes[1..]))
  }

  predicate RunsOrderly(s: State, events: seq<Event>, after: real, chunk: nat)
    decreases |events|
  {
    events == [] ||
    (&& AllOrderly(s, if events[0].One? then [events[0].note] else events[0].during)
     && RunsOrderly(Step(s, events[0], after, chunk), events[1..], after, chunk))
  }

  /** The queue names monitored items only after each note. */
  ghost predicate AllTracked(s: State, notes: seq<Note>)
    decreases |notes|
  {
    notes == [] || (Noted(s, notes[0]).Tracked() && AllTracked(Noted(s, notes[0]), notes[1..]))
  }

  ghost predicate RunsTracked(s: State, events: seq<Event>, after: real, chunk: nat)
    decreases |events|
  {
    events == [] ||
    (&& AllTracked(s, if events[0].One? then [events[0].note] else events[0].during)
     && RunsTracked(Step(s, events[0], after, chunk), events[1..], after, chunk))
  }

  lemma OrderlyIff(s: State, note: Note)
    requires s.Tracked()
    ensures Noted(s, note).Tracked() <==> Orderly(s, note)
  {
    if Touches(s, note) {
      TouchedHolds(s.q, note.handle, note.at);
    }
    if note.Accepted? && note.handle !in s.monitored {
      assert Holds(Noted(s, note).q, note.handle);
    }
    if note.Refused? && Holds(s.q, note.handle) {
      assert Holds(Noted(s, note).q, note.handle);
    }
  }

  lemma {:induction false} AllOrderlyIff(s: State, notes: seq<Note>)
    requires s.Tracked()
    ensures AllTracked(s, notes) <==> AllOrderly(s, notes)
    ensures AllOrderly(s, notes) ==> AllNoted(s, notes).Tracked()
    decreases |notes|
  {
    if notes != [] {
      OrderlyIff(s, notes[0]);
      if Orderly(s, notes[0]) {
        AllOrderlyIff(Noted(s, notes[0]), notes[1..]);
      }
    }
  }

  lemma {:induction false} RefreshedHolds(q: Queue, due: seq<nat>, now: real)
    ensures forall h: nat :: Holds(Refreshed(q, due, now), h) <==> Holds(q, h)
    decreases |due|
  {
    if due != [] {
      TouchedHolds(q, due[0], now);
      RefreshedHolds(if Holds(q, due[0]) then Touched(q, due[0], now) else q, due[1..], now);
    }
  }

  lemma StepTracked(s: State, e: Event, after: real, chunk: nat)
    requires s.Tracked() && AllOrderly(s, if e.One? then [e.note] else e.during)
    ensures Step(s, e, after, chunk).Tracked()
  {
    match e {
      case One(note) => OrderlyIff(s, note);
      case Sweep(begin, during, end) =>
        AllOrderlyIff(s, during);
        RefreshedHolds(AllNoted(s, during).q, Due(s.q, begin, after, chunk), end);
    }
  }

  /** Over any run, the queue never names an item no longer monitored exactly when the server never refuses an
      item already queued, nor accepts one not registered. */
  lemma {:induction false} TrackedIffOrderly(s: State, events: seq<Event>, after: real, chunk: nat)
    requires s.Tracked()
    ensures RunsTracked(s, events, after, chunk) <==> RunsOrderly(s, events, after, chunk)
    decreases |events|
  {
    if events != [] {
      var e := events[0];
      AllOrderlyIff(s, if e.One? then [e.note] else e.during);
      if AllOrderly(s, if e.One? then [e.note] else e.during) {
        StepTracked(s, e, after, chunk);
        TrackedIffOrderly(Step(s, e, after, chunk), events[1..], after, chunk);
      }
    }
  }

  // ------------------------------------------------------------ what a sweep reads

  /** Some sweep of the run, begun by the deadline, reads `x`. */
  predicate ReadBy(s: State, events: seq<Event>, x: nat, deadline: real, after: real, chunk: nat)
    decreases |events|
  {
    events != [] &&
    (|| (events[0].Sweep? && events[0].begin <= deadline && Reads(s, events[0].begin, x, after, chunk))
     || ReadBy(Step(s, events[0], after, chunk), events[1..], x, deadline, after, chunk))
  }

  /** A sweep begun now reads `x`. */
  predicate Reads(s: State, now: real, x: nat, after: real, chunk: nat) {
    var due := Due(s.q, now, after, chunk);
    x in due && !s.Raises(due)
  }

  /** `u` is queued but not monitored, and no note is about to change that. */
  predicate Leaves(note: Note, u: nat) {
    !note.Emptied? && ((note.Registered? || note.Accepted?) ==> note.handle != u)
  }

  predicate AllLeave(e: Event, u: nat) {
    match e
    case One(note) => Leaves(note, u)
    case Sweep(_, during, _) => forall i :: 0 <= i < |during| ==> Leaves(during[i], u)
  }

  predicate RunLeaves(events: seq<Event>, u: nat)
    decreases |events|
  {
    events == [] || (AllLeave(events[0], u) && RunLeaves(events[1..], u))
  }

  /** An item no longer monitored is queued before `x`. */
  ghost predicate Blocked(s: State, u: nat, x: nat) {
    u !in s.monitored && u != x && Holds(s.q, x) && u in Before(s.q, x)
  }

  lemma NoteBlocked(s: State, note: Note, u: nat, x: nat, clock: real)
    requires Ordered(s.q, clock) && Blocked(s, u, x) && Leaves(note, u)
    ensures Blocked(Noted(s, note), u, x)
  {
    if Touches(s, note) {
      if !Holds(s.q, u) {
        NotBefore(s.q, u, x);
      }
      if note.handle == x {
        TouchedLast(s.q, x, note.at, u, clock);
      } else {
        TouchedBefore(s.q, note.handle, note.at, x, s.q[Position(s.q, x)].at, clock);
        TouchedHolds(s.q, note.handle, note.at);
      }
    }
  }

  lemma {:induction false} NotesBlocked(s: State, notes: seq<Note>, u: nat, x: nat, clock: real)
    requires Ordered(s.q, clock) && Forward(clock, notes) && Blocked(s, u, x)
    requires forall i :: 0 <= i < |notes| ==> Leaves(notes[i], u)
    ensures Blocked(AllNoted(s, notes), u, x)
    decreases |notes|
  {
    if notes != [] {
      NoteBlocked(s, notes[0], u, x, clock);
      NoteOrdered(s, notes[0], clock);
      NotesBlocked(Noted(s, notes[0]), notes[1..], u, x, Ticked(clock, notes[0]));
    }
  }

  lemma StepBlocked(s: State, e: Event, u: nat, x: nat, clock: real, after: real, chunk: nat)
    requires Ordered(s.q, clock) && Timed(clock, e) && Blocked(s, u, x) && AllLeave(e, u)
    ensures e.Sweep? ==> !Reads(s, e.begin, x, after, chunk)
    ensures Blocked(Step(s, e, after, chunk), u, x)
  {
    match e {
      case One(note) => NoteBlocked(s, note, u, x, clock);
      case Sweep(begin, during, end) =>
        var due, mid := Due(s.q, begin, after, chunk), AllNoted(s, during);
        if x in due {
          DueFromFront(s.q, begin, after, chunk, x, u);
        }
        NotesBlocked(s, during, u, x, begin);
        if !s.Raises(due) {
          NotesOrdered(s, during, begin);
          RefreshedBefore(mid.q, due, end, x, mid.q[Position(mid.q, x)].at, Clock(begin, during));
          RefreshedHolds(mid.q, due, end);
        }
    }
  }

  /** While such an item is queued before it, no sweep ever reads `x`, however often it is heard from. */
  lemma {:induction false} NeverRead(s: State, events: seq<Event>, u: nat, x: nat, deadline: real, clock: real, after: real,
                                     chunk: nat)
    requires Ordered(s.q, clock) && AllTimed(clock, events) && Blocked(s, u, x) && RunLeaves(events, u)
    ensures !ReadBy(s, events, x, deadline, after, chunk)
    decreases |events|
  {
    if events != [] {
      StepBlocked(s, events[0], u, x, clock, after, chunk);
      StepOrdered(s, events[0], clock, after, chunk);
      NeverRead(Step(s, events[0], after, chunk), events[1..], u, x, deadline, After(clock, events[0]), after, chunk);
    }
  }

  // ------------------------------------------------------------ how late a silent item is read

  /** The server says nothing of `x`. */
  predicate SilentNote(note: Note, x: nat) {
    !note.Emptied? && ((note.Heard? || note.Accepted?) ==> note.handle != x)
  }

  predicate Silent(e: Event, x: nat) {
    match e
    case One(note) => SilentNote(note, x)
    case Sweep(_, during, _) => forall i :: 0 <= i < |during| ==> SilentNote(during[i], x)
  }

  lemma NoteBefore(s: State, note: Note, x: nat, t: real, clock: real)
    requires Ordered(s.q, clock) && Entry(x, t) in s.q && SilentNote(note, x)
    ensures Before(Noted(s, note).q, x) <= Before(s.q, x) && Entry(x, t) in Noted(s, note).q
  {
    if Touches(s, note) {
      TouchedBefore(s.q, note.handle, note.at, x, t, clock);
    }
  }

  lemma {:induction false} NotesBefore(s: State, notes: seq<Note>, x: nat, t: real, clock: real)
    requires Ordered(s.q, clock) && Forward(clock, notes) && Entry(x, t) in s.q
    requires forall i :: 0 <= i < |notes| ==> SilentNote(notes[i], x)
    ensures Before(AllNoted(s, notes).q, x) <= Before(s.q, x) && Entry(x, t) in AllNoted(s, notes).q
    decreases |notes|
  {
    if notes != [] {
      NoteBefore(s, notes[0], x, t, clock);
      NoteOrdered(s, notes[0], clock);
      NotesBefore(Noted(s, notes[0]), notes[1..], x, t, Ticked(clock, notes[0]));
    }
  }

  /** Each sweep begun with `x` due reads it, or takes a whole Read's worth of items away from before it. */
  lemma SweepAdvances(s: State, e: Event, x: nat, t: real, clock: real, after: real, chunk: nat)
    requires Ordered(s.q, clock) && Timed(clock, e) && Silent(e, x) && Entry(x, t) in s.q && s.Tracked()
    requires e.Sweep? ==> !Reads(s, e.begin, x, after, chunk)
    ensures var r := Step(s, e, after, chunk);
            && Entry(x, t) in r.q && |Before(r.q, x)| <= |Before(s.q, x)|
            && (e.Sweep? && e.begin - t >= after ==> |Before(r.q, x)| + chunk <= |Before(s.q, x)|)
  {
    match e {
      case One(note) =>
        NoteBefore(s, note, x, t, clock);
        Smaller(Before(Noted(s, note).q, x), Before(s.q, x));
      case Sweep(begin, during, end) =>
        var due, mid := Due(s.q, begin, after, chunk), AllNoted(s, during);
        NotesBefore(s, during, x, t, begin);
        NotesOrdered(s, during, begin);
        RefreshedBefore(mid.q, due, end, x, t, Clock(begin, during));
        Overtaken(s.q, begin, after, chunk, x, t, clock, Before(Refreshed(mid.q, due, end), x));
    }
  }

  // ------------------------------------------------------------ the sweep's pace

  /** Sweeps it takes to read `n` items. */
  function Rounds(n: nat, chunk: nat): (k: nat)
    requires chunk > 0
    ensures n as real <= Times(k, chunk as real)
    ensures k > 0 ==> Times(k - 1, chunk as real) <= (n - 1) as real
    ensures k <= 1 <==> n <= chunk
  {
    var k := (n + chunk - 1) / chunk;
    TimesIs(k, chunk as real);
    TimesIs(if k > 0 then k - 1 else 0, chunk as real);
    k
  }

  /** The sweep's period for `n` subscribed items. */
  function Period(after: real, n: nat, chunk: nat): (step: real)
    requires after > 0.0 && chunk > 0
    ensures step > 0.0 && Times(SWEEP_STEPS, step) <= after && Times(Rounds(n, chunk), step) <= after
    ensures Times(SWEEP_STEPS, step) == after || (Rounds(n, chunk) > SWEEP_STEPS && Times(Rounds(n, chunk), step) == after)
  {
    var k := if Rounds(n, chunk) > SWEEP_STEPS then Rounds(n, chunk) else SWEEP_STEPS;
    var step := after / k as real;
    TimesIs(k, step);
    TimesGrows(SWEEP_STEPS, k, step);
    TimesGrows(Rounds(n, chunk), k, step);
    step
  }

  /** Each sweep begins within `step` of the one before. */
  predicate OnTime(events: seq<Event>, last: real, step: real)
    decreases |events|
  {
    events == [] ||
    (&& (events[0].Sweep? ==> last <= events[0].begin <= last + step)
     && OnTime(events[1..], if events[0].Sweep? then events[0].begin else last, step))
  }

  predicate AllSilent(events: seq<Event>, x: nat)
    decreases |events|
  {
    events == [] || (Silent(events[0], x) && AllSilent(events[1..], x))
  }

  /** The run is long enough to have a sweep past the deadline. */
  predicate Outlasts(events: seq<Event>, deadline: real)
    decreases |events|
  {
    events != [] && ((events[0].Sweep? && events[0].begin > deadline) || Outlasts(events[1..], deadline))
  }

  /** Fewer than `left` Reads' worth of items come before a silent one. */
  ghost predicate InTurn(s: State, x: nat, t: real, clock: real, chunk: nat, left: nat) {
    && Ordered(s.q, clock) && Entry(x, t) in s.q && s.Tracked()
    && |Before(s.q, x)| as real < Times(left, chunk as real)
  }

  predicate DueSweep(e: Event, t: real, after: real) {
    e.Sweep? && e.begin - t >= after
  }

  lemma TurnPasses(s: State, e: Event, x: nat, t: real, clock: real, after: real, chunk: nat, left: nat)
    requires InTurn(s, x, t, clock, chunk, left) && Timed(clock, e) && Silent(e, x)
    requires AllOrderly(s, if e.One? then [e.note] else e.during)
    requires e.Sweep? ==> !Reads(s, e.begin, x, after, chunk)
    ensures DueSweep(e, t, after) ==> left > 0
    ensures InTurn(Step(s, e, after, chunk), x, t, After(clock, e), chunk, if DueSweep(e, t, after) then left - 1 else left)
  {
    SweepAdvances(s, e, x, t, clock, after, chunk);
    StepOrdered(s, e, clock, after, chunk);
    StepTracked(s, e, after, chunk);
  }

  /** Such an item is read by the left-th sweep after it falls due. */
  lemma {:induction false} ReadInTurn(s: State, events: seq<Event>, x: nat, t: real, clock: real, after: real, chunk: nat,
                                      last: real, step: real, left: nat, deadline: real)
    requires InTurn(s, x, t, clock, chunk, left) && AllTimed(clock, events) && AllSilent(events, x)
    requires RunsOrderly(s, events, after, chunk)
    requires OnTime(events, last, step) && step > 0.0
    requires last + Times(left, step) <= deadline && t + after + Times(left, step) <= deadline
    requires Outlasts(events, deadline)
    ensures ReadBy(s, events, x, deadline, after, chunk)
    decreases |events|
  {
    var e := events[0];
    if !(e.Sweep? && Reads(s, e.begin, x, after, chunk)) {
      TurnPasses(s, e, x, t, clock, after, chunk, left);
      var next := if e.Sweep? then e.begin else last;
      var rest := if DueSweep(e, t, after) then left - 1 else left;
      ReadInTurn(Step(s, e, after, chunk), events[1..], x, t, After(clock, e), after, chunk, next, step, rest, deadline);
    } else {
      assert left > 0;
    }
  }

  /** A run in which an item, last heard from at `t` and silent since, keeps its place while the sweep, set for
      `n` monitored items, runs on time and past the deadline, the server answering in order. */
  datatype History = History(s: State, events: seq<Event>, x: nat, t: real, clock: real, last: real,
                             deadline: real)

  ghost predicate Observed(h: History, after: real, n: nat, step: real, chunk: nat) {
    && Ordered(h.s.q, h.clock) && |h.s.monitored| <= n && Entry(h.x, h.t) in h.s.q
    && AllTimed(h.clock, h.events) && AllSilent(h.events, h.x) && RunsOrderly(h.s, h.events, after, chunk)
    && h.last <= h.clock && h.last <= h.t + after && OnTime(h.events, h.last, step)
    && Outlasts(h.events, h.deadline)
  }

  /** The history's item is re-read by its deadline. */
  ghost predicate Prompt(h: History, after: real, n: nat, step: real, chunk: nat) {
    Observed(h, after, n, step, chunk) ==> ReadBy(h.s, h.events, h.x, h.deadline, after, chunk)
  }

  /** Every silent item is, with the deadline `factor` times the staleness period after it was last heard from,
      the queue naming monitored items only to begin with. */
  ghost predicate RefreshedWithin(factor: real, after: real, n: nat, step: real, chunk: nat) {
    forall h: History :: h.s.Tracked() && h.deadline == h.t + factor * after ==> Prompt(h, after, n, step, chunk)
  }

  /** While the queue names monitored items only, fewer come before one of them than are monitored. */
  lemma FewerBefore(s: State, x: nat)
    requires s.Tracked() && Holds(s.q, x)
    ensures |Before(s.q, x)| < |s.monitored|
  {
    var before := Before(s.q, x);
    forall h | h in before
      ensures h in s.monitored && h != x
    {
      BeforeHeld(s.q, x, h);
    }
    assert before <= s.monitored - {x};
    Smaller(before, s.monitored - {x});
  }

  lemma PromptIf(h: History, after: real, n: nat, step: real, chunk: nat, k: nat)
    requires chunk > 0 && step > 0.0 && h.s.Tracked()
    requires n as real <= Times(k, chunk as real) && h.t + after + Times(k, step) <= h.deadline
    ensures Prompt(h, after, n, step, chunk)
  {
    if Observed(h, after, n, step, chunk) {
      EntryHolds(h.s.q, h.x, h.t);
      FewerBefore(h.s, h.x);
      ReadInTurn(h.s, h.events, h.x, h.t, h.clock, after, chunk, h.last, step, k, h.deadline);
    }
  }

  /** Twice the period always suffices. */
  lemma AlwaysWithinTwice(after: real, n: nat, chunk: nat)
    requires after > 0.0 && chunk > 0
    ensures RefreshedWithin(2.0, after, n, Period(after, n, chunk), chunk)
  {
    Suffices(2.0, after, n, chunk, Rounds(n, chunk), Period(after, n, chunk));
  }

  lemma Suffices(factor: real, after: real, n: nat, chunk: nat, k: nat, step: real)
    requires chunk > 0 && step > 0.0
    requires n as real <= Times(k, chunk as real) && after + Times(k, step) <= factor * after
    ensures RefreshedWithin(factor, after, n, step, chunk)
  {
    forall h: History | h.s.Tracked() && h.deadline == h.t + factor * after
      ensures Prompt(h, after, n, step, chunk)
    {
      PromptIf(h, after, n, step, chunk, k);
    }
  }

  /** Sweeps `step` apart with nothing between them. */
  function Pace(begin: real, step: real, k: nat): seq<Event>
    decreases k
  {
    if k == 0 then [] else [Sweep(begin, [], begin)] + Pace(begin + step, step, k - 1)
  }

  lemma {:induction false} PaceObserved(begin: real, step: real, k: nat, x: nat, clock: real)
    requires step >= 0.0 && clock <= begin <= clock + step
    ensures var events := Pace(begin, step, k);
            AllTimed(clock, events) && AllSilent(events, x) && OnTime(events, clock, step) && RunLeaves(events, x)
    decreases k
  {
    if k > 0 {
      PaceObserved(begin + step, step, k - 1, x, begin);
      assert Pace(begin, step, k)[1..] == Pace(begin + step, step, k - 1);
    }
  }

  lemma {:induction false} BareOrderly(s: State, events: seq<Event>, after: real, chunk: nat)
    requires forall i :: 0 <= i < |events| ==> events[i].Sweep? && events[i].during == []
    ensures RunsOrderly(s, events, after, chunk)
    decreases |events|
  {
    if events != [] {
      BareOrderly(Step(s, events[0], after, chunk), events[1..], after, chunk);
    }
  }

  lemma {:induction false} PaceOutlasts(begin: real, step: real, k: nat, d: real)
    requires k > 0 && begin + Times(k - 1, step) > d
    ensures Outlasts(Pace(begin, step, k), d)
    decreases k
  {
    if k > 1 {
      PaceOutlasts(begin + step, step, k - 1, d);
      assert Pace(begin, step, k)[1..] == Pace(begin + step, step, k - 1);
    }
  }

  /** Sweeps with nothing between or within, the i-th beginning i steps after the first. */
  ghost predicate Bare(events: seq<Event>, begin: real, step: real) {
    forall i :: 0 <= i < |events| ==> events[i] == Sweep(begin + Times(i, step), [], begin + Times(i, step))
  }

  lemma {:induction false} PaceBare(begin: real, step: real, k: nat)
    ensures Bare(Pace(begin, step, k), begin, step)
    decreases k
  {
    if k > 0 {
      PaceBare(begin + step, step, k - 1);
      var rest := Pace(begin + step, step, k - 1);
      assert forall i :: 0 < i < |Pace(begin, step, k)| ==> Pace(begin, step, k)[i] == rest[i - 1];
    }
  }

  /** `k` such sweeps: on time, orderly on any state, silent of any item, and past the deadline. */
  lemma Paced(s: State, begin: real, step: real, k: nat, x: nat, u: nat, clock: real, after: real, chunk: nat, deadline: real)
    returns (events: seq<Event>)
    requires step >= 0.0 && clock <= begin <= clock + step && k > 0 && begin + Times(k - 1, step) > deadline
    ensures AllTimed(clock, events) && AllSilent(events, x) && OnTime(events, clock, step) && RunLeaves(events, u)
    ensures RunsOrderly(s, events, after, chunk) && Outlasts(events, deadline) && Bare(events, begin, step)
  {
    events := Pace(begin, step, k);
    PaceObserved(begin, step, k, x, clock);
    PaceObserved(begin, step, k, u, clock);
    PaceOutlasts(begin, step, k, deadline);
    PaceBare(begin, step, k);
    BareOrderly(s, events, after, chunk);
  }

  // ------------------------------------------------------------ exactly when the promise holds

  /** From here on, every item is re-read within `factor` times the period after it is next heard from. */
  ghost predicate Promised(s: State, clock: real, factor: real, after: real, n: nat, step: real, chunk: nat) {
    forall h: History :: FromNow(h, s, clock) && h.deadline == h.t + factor * after ==> Prompt(h, after, n, step, chunk)
  }

  ghost predicate FromNow(h: History, s: State, clock: real) {
    h.x in s.monitored && clock <= h.t && h.s == Noted(s, Heard(h.x, h.t))
  }

  /** With the sweep set for all monitored items, refreshing within twice the period is kept exactly while the queue
      names monitored items only, if any item is monitored at all: from the start of a connection, exactly while the
      server refuses no item already queued. */
  lemma PromiseIffTracked(s: State, clock: real, after: real, n: nat, chunk: nat)
    requires after > 0.0 && chunk > 0 && Ordered(s.q, clock) && 0 < |s.monitored| <= n
    ensures Promised(s, clock, 2.0, after, n, Period(after, n, chunk), chunk) <==> s.Tracked()
  {
    var k, step := Rounds(n, chunk), Period(after, n, chunk);
    if s.Tracked() {
      forall h: History | FromNow(h, s, clock) && h.deadline == h.t + 2.0 * after
        ensures Prompt(h, after, n, step, chunk)
      {
        OrderlyIff(s, Heard(h.x, h.t));
        PromptIf(h, after, n, step, chunk, k);
      }
    } else {
      var u: nat :| Holds(s.q, u) && u !in s.monitored;
      var x :| x in s.monitored;
      BrokenPromise(s, clock, after, n, step, chunk, u, x);
    }
  }

  lemma BrokenPromise(s: State, clock: real, after: real, n: nat, step: real, chunk: nat, u: nat, x: nat)
    requires after > 0.0 && step > 0.0 && Ordered(s.q, clock) && |s.monitored| <= n
    requires Holds(s.q, u) && u !in s.monitored && x in s.monitored
    ensures !Promised(s, clock, 2.0, after, n, step, chunk)
  {
    var deadline := clock + 2.0 * after;
    var k := Enough(clock + step, step, deadline);
    var h := Starved(s, clock, after, n, step, chunk, u, x, k, deadline);
  }

  /** Sweeps enough to pass a deadline. */
  lemma Enough(begin: real, step: real, deadline: real) returns (k: nat)
    requires step > 0.0
    ensures k > 0 && begin + Times(k - 1, step) > deadline
  {
    if deadline < begin {
      k := 1;
    } else {
      var gap := (deadline - begin) / step;
      var n: nat := gap.Floor + 1;
      assert gap * step == deadline - begin && gap >= 0.0;
      Past(gap, n, step, deadline - begin);
      k := n + 1;
    }
  }

  lemma Past(gap: real, n: nat, step: real, room: real)
    requires gap < n as real && step > 0.0 && room == gap * step
    ensures Times(n, step) > room
  {
    TimesIs(n, step);
    Grows(gap, n as real, step, room, Times(n, step));
  }

  lemma Grows(a: real, b: real, step: real, p: real, q: real)
    requires a < b && step > 0.0 && p == a * step && q == b * step
    ensures p < q
  {
    assert (b - a) * step > 0.0;
  }

  lemma Starved(s: State, clock: real, after: real, n: nat, step: real, chunk: nat, u: nat, x: nat, k: nat, deadline: real)
    returns (h: History)
    requires after > 0.0 && step > 0.0 && Ordered(s.q, clock) && |s.monitored| <= n
    requires Holds(s.q, u) && u !in s.monitored && x in s.monitored && k > 0 && clock + step + Times(k - 1, step) > deadline
    ensures FromNow(h, s, clock) && h.t == clock && h.deadline == deadline && !Prompt(h, after, n, step, chunk)
  {
    var heard := Noted(s, Heard(x, clock));
    NoteOrdered(s, Heard(x, clock), clock);
    TouchedLast(s.q, x, clock, u, clock);
    var events := Paced(heard, clock + step, step, k, x, u, clock, after, chunk, deadline);
    NeverRead(heard, events, u, x, deadline, clock, after, chunk);
    h := Recorded(heard, events, x, clock, clock, after, n, step, chunk, deadline);
  }

  lemma Recorded(s: State, events: seq<Event>, x: nat, t: real, clock: real, after: real, n: nat, step: real, chunk: nat,
                 deadline: real) returns (h: History)
    requires Ordered(s.q, clock) && |s.monitored| <= n && Entry(x, t) in s.q && clock <= t + after
    requires AllTimed(clock, events) && AllSilent(events, x) && RunsOrderly(s, events, after, chunk)
    requires OnTime(events, clock, step) && Outlasts(events, deadline)
    requires !ReadBy(s, events, x, deadline, after, chunk)
    ensures h == History(s, events, x, t, clock, clock, deadline) && !Prompt(h, after, n, step, chunk)
  {
    h := History(s, events, x, t, clock, clock, deadline);
  }

  /** Two items published, the first then refused: the second is never re-read, whenever and however often the
      sweep runs, until the first is registered anew or everything is moved to polling. */
  lemma RefusedStopsSweeps(events: seq<Event>, deadline: real, after: real, chunk: nat)
    requires AllTimed(2.0, events) && RunLeaves(events, 1)
    ensures var notes := [Registered(1), Registered(2), Heard(1, 1.0), Heard(2, 2.0), Refused(1)];
            && AllNoted(Empty, notes) == State([Entry(1, 1.0), Entry(2, 2.0)], {2})
            && !ReadBy(AllNoted(Empty, notes), events, 2, deadline, after, chunk)
  {
    var s := State([Entry(1, 1.0), Entry(2, 2.0)], {2});
    assert s.q[1..] == [Entry(2, 2.0)];
    NeverRead(s, events, 1, 2, deadline, 2.0, after, chunk);
  }

  /** From there, with the sweep set for the one item left, the promise is broken. */
  lemma RefusedBreaksPromise(after: real, chunk: nat)
    requires after > 0.0 && chunk > 0
    ensures var s := State([Entry(1, 1.0), Entry(2, 2.0)], {2});
            !Promised(s, 2.0, 2.0, after, 1, Period(after, 1, chunk), chunk)
  {
    var s := State([Entry(1, 1.0), Entry(2, 2.0)], {2});
    assert Holds(s.q, 1) && 1 !in s.monitored;
    PromiseIffTracked(s, 2.0, after, 1, chunk);
  }

  // ------------------------------------------------------------ the bound of the comment

  /** Nothing is read by the deadline by sweeps begun after it. */
  lemma {:induction false} NotReadLate(s: State, events: seq<Event>, x: nat, deadline: real, after: real, chunk: nat)
    requires forall i :: 0 <= i < |events| ==> events[i].Sweep? && events[i].begin > deadline
    ensures !ReadBy(s, events, x, deadline, after, chunk)
    decreases |events|
  {
    if events != [] {
      NotReadLate(Step(s, events[0], after, chunk), events[1..], x, deadline, after, chunk);
    }
  }

  /** An item with `m` Reads' worth before it is not read by the first `m` sweeps. */
  lemma {:induction false} NotYetRead(s: State, events: seq<Event>, x: nat, deadline: real, after: real, chunk: nat, m: nat)
    requires forall i :: 0 <= i < |events| ==> events[i].Sweep? && events[i].during == []
    requires forall i :: m <= i < |events| ==> events[i].begin > deadline
    requires Times(m, chunk as real) <= Position(s.q, x) as real
    ensures !ReadBy(s, events, x, deadline, after, chunk)
    decreases |events|
  {
    if m == 0 {
      NotReadLate(s, events, x, deadline, after, chunk);
    } else if events != [] {
      SweptPosition(s, events[0], x, after, chunk, m);
      assert forall i :: m - 1 <= i < |events[1..]| ==> events[1..][i] == events[i + 1];
      NotYetRead(Step(s, events[0], after, chunk), events[1..], x, deadline, after, chunk, m - 1);
    }
  }

  lemma SweptPosition(s: State, e: Event, x: nat, after: real, chunk: nat, m: nat)
    requires e.Sweep? && e.during == [] && m > 0 && Times(m, chunk as real) <= Position(s.q, x) as real
    ensures !Reads(s, e.begin, x, after, chunk)
    ensures Times(m - 1, chunk as real) <= Position(Step(s, e, after, chunk).q, x) as real
  {
    var due := Due(s.q, e.begin, after, chunk);
    assert forall i :: 0 <= i < |due| ==> due[i] == s.q[i].handle;
    RefreshedPosition(s.q, due, e.end, x);
    var p := Position(Step(s, e, after, chunk).q, x);
    assert p >= Position(s.q, x) - chunk;
    assert Times(m, chunk as real) == chunk as real + Times(m - 1, chunk as real);
  }

  /** A quarter more than the period, as the comment on the step count promises, suffices exactly when one Read
      takes all the items. */
  lemma WithinAQuarterIff(after: real, n: nat, chunk: nat)
    requires after > 0.0 && chunk > 0
    ensures RefreshedWithin(1.25, after, n, Period(after, n, chunk), chunk) <==> n <= chunk
  {
    var k, step := Rounds(n, chunk), Period(after, n, chunk);
    TimesIs(SWEEP_STEPS, step);
    if n <= chunk {
      TimesGrows(k, 1, step);
      Suffices(1.25, after, n, chunk, k, step);
    } else {
      LateEnough(after, n, chunk);
      QuarterFails(after, n, chunk, k, step);
    }
  }

  /** Two items and one per Read: a sweep every two of eight seconds does not refresh each within ten. */
  lemma TwoOverAQuarter()
    ensures Period(8.0, 2, 1) == 2.0 && !RefreshedWithin(1.25, 8.0, 2, 2.0, 1)
  {
    WithinAQuarterIff(8.0, 2, 1);
  }

  /** More items than a Read takes, all heard from at once, just too late for one sweep: the last waits for every
      Read's turn. */
  lemma QuarterFails(after: real, n: nat, chunk: nat, k: nat, step: real)
    requires 0 < n && k > 0 && 0.0 < step <= after && Times(k - 1, chunk as real) <= (n - 1) as real
    requires after + step / 2.0 + Times(k - 1, step) > 1.25 * after
    ensures !RefreshedWithin(1.25, after, n, step, chunk)
  {
    var h := LastOfMany(AllAtOnce(n), n - 1, after - step / 2.0, after, n, k, step, chunk, 1.25 * after);
  }

  /** The item at the end of the queue, with sweeps beginning just too late for it. */
  lemma LastOfMany(s: State, x: nat, start: real, after: real, n: nat, k: nat, step: real, chunk: nat, deadline: real)
    returns (h: History)
    requires Ordered(s.q, start) && |s.monitored| <= n && Entry(x, 0.0) in s.q && start <= after && step > 0.0
    requires k > 0 && start + step + Times(k - 1, step) > deadline && Times(k - 1, chunk as real) <= Position(s.q, x) as real
    ensures h.s == s && h.t == 0.0 && h.deadline == deadline && !Prompt(h, after, n, step, chunk)
  {
    var events := Paced(s, start + step, step, k, x, x, start, after, chunk, deadline);
    forall i | k - 1 <= i < |events|
      ensures events[i].begin > deadline
    {
      TimesGrows(k - 1, i, step);
    }
    NotYetRead(s, events, x, deadline, after, chunk, k - 1);
    h := Recorded(s, events, x, 0.0, start, after, n, step, chunk, deadline);
  }

  function UpTo(n: nat): (s: set<nat>)
    ensures |s| == n && forall h: nat :: h in s <==> h < n
  {
    if n == 0 then {} else UpTo(n - 1) + {n - 1}
  }

  function AllAtOnce(n: nat): (s: State)
    requires n > 0
    ensures |s.monitored| == n && Entry(n - 1, 0.0) in s.q && Position(s.q, n - 1) == n - 1
    ensures Ordered(s.q, 0.0) && s.Tracked()
  {
    var q: Queue := seq(n, i requires 0 <= i < n => Entry(i, 0.0));
    assert q[n - 1] == Entry(n - 1, 0.0);
    State(q, UpTo(n))
  }

  lemma LateEnough(after: real, n: nat, chunk: nat)
    requires after > 0.0 && 0 < chunk < n
    ensures var k, step := Rounds(n, chunk), Period(after, n, chunk);
            k >= 2 && step <= after && after + step / 2.0 + Times(k - 1, step) > 1.25 * after
  {
    var k, step := Rounds(n, chunk), Period(after, n, chunk);
    TimesIs(SWEEP_STEPS, step);
    TimesGrows(1, k - 1, step);
    if k > SWEEP_STEPS {
      TimesGrows(SWEEP_STEPS, k - 1, step);
    }
  }
}
