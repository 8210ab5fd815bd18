/**
 The transport of one connection: subscriptions in chunks, polling what the server refuses or
 what may change type, recreating one subscription, and falling back to polling everything.
 The server is an adversary: every request may succeed, be refused with a status code, or
 die with the link.

 A target is its client handle. Lists of targets stand for the intervals they are grouped by.
 */
module Transports {
  import opened Chunking
  import opened Services

  // ------------------------------------------------------------ coverage

  /** The transport at one moment: monitored handles, the client's subscriptions, the items the server
      accepted on each, the ids whose messages this client gets, and the subscriptions whose targets are
      polled as well: an emptied one that could not be deleted, or what it was recreated as. */
  datatype Link = Link(monitored: set<nat>, subs: map<nat, seq<nat>>, accepted: map<nat, set<nat>>,
                       callbacks: set<nat>, doubled: set<nat>)
  {
    ghost predicate Carries(id: nat, h: nat) {
      id in subs && h in subs[id] && id in accepted && h in accepted[id]
    }

    /** `h` is monitored in a subscription the client keeps and the server accepted it on. */
    ghost predicate IsLive(h: nat) {
      h in monitored && exists id :: Carries(id, h)
    }

    ghost function Live(): set<nat> {
      set h | h in monitored && IsLive(h)
    }

    /** Every target is subscribed or in `polled`. */
    ghost predicate Covers(done: set<nat>, polled: set<nat>) {
      done <= polled + Live()
    }

    /** Subscriptions hold targets, each once and in one of them; all accepted and none polled, or all
        polled if doubled. */
    ghost predicate Tidy(done: set<nat>, polled: set<nat>) {
      && monitored + polled <= done && doubled <= subs.Keys
      && Separate()
      && forall id :: id in subs ==> Sided(id, done, polled)
    }

    ghost predicate Sided(id: nat, done: set<nat>, polled: set<nat>)
      requires id in subs
    {
      && subs[id] != [] && NoRepeats(subs[id]) && Elems(subs[id]) <= done
      && if id in doubled then Elems(subs[id]) <= polled
         else Elems(subs[id]) !! polled && Elems(subs[id]) <= monitored && id in accepted && Elems(subs[id]) <= accepted[id]
    }

    ghost predicate Separate() {
      forall id, other, h :: id in subs && other in subs && h in subs[id] && h in subs[other] ==> id == other
    }

    /** No target the client keeps in a subscription is polled. */
    ghost predicate OneSide(polled: set<nat>) {
      forall id, h :: id in subs && h in subs[id] ==> h !in polled
    }

    /** Messages of every subscription that carries items reach this client. */
    ghost predicate Delivers() {
      forall id, h :: Carries(id, h) ==> id in callbacks
    }

    /** What a created subscription came to: it carries the accepted items; with none it is
        deleted, or left over with every item. */
    ghost predicate Landed(was: Link, id: nat, items: seq<nat>, taken: set<nat>) {
      && id !in was.accepted
      && Became(monitored, items, taken, was.monitored)
      && (taken != {} ==>
            && subs == was.subs[id := Filter(items, monitored)]
            && accepted == was.accepted[id := taken]
            && callbacks == was.callbacks + {id} && doubled == was.doubled - {id})
      && (taken == {} ==>
            && accepted - {id} == was.accepted && (id in accepted ==> accepted[id] == {})
            && callbacks == was.callbacks - {id}
            && ((subs == was.subs - {id} && doubled == was.doubled - {id})
                || (subs == was.subs[id := items] && doubled == was.doubled + {id})))
    }
  }

  /** The accepted items are monitored; a refused one only if it was already. */
  ghost predicate Became(monitored: set<nat>, items: seq<nat>, taken: set<nat>, was: set<nat>) {
    && (forall h :: h !in items ==> (h in monitored <==> h in was))
    && (forall h :: h in taken ==> h in monitored)
    && (forall h :: h in items && h !in taken && h in monitored ==> h in was)
  }

  /** `refused` lists the items not accepted. */
  ghost predicate Refusal(items: seq<nat>, accepted: set<nat>, refused: seq<nat>) {
    && (forall h :: h in accepted ==> h in items)
    && (forall h :: h in refused <==> h in items && h !in accepted)
    && |refused| <= |items|
    && (|refused| == |items| <==> accepted == {})
  }

  /** The outcome of one Subscribe. */
  ghost predicate Subscribed(was: Link, now: Link, items: seq<nat>, refused: seq<nat>, created: Option<nat>, taken: set<nat>) {
    && Refusal(items, taken, refused)
    && (created.None? ==> taken == {} && now == was)
    && (created.Some? ==> now.Landed(was, created.value, items, taken))
  }

  /** Subscribing items not seen before puts each of them on a side and leaves the others where they were,
      whatever id the server gives. */
  lemma SubscribedCovers(was: Link, now: Link, items: seq<nat>, refused: seq<nat>, created: Option<nat>,
                         taken: set<nat>, done: set<nat>, polled: set<nat>)
    requires items != [] && NoRepeats(items) && Elems(items) !! done
    requires was.Tidy(done, polled) && was.Covers(done, polled) && was.Delivers()
    requires Subscribed(was, now, items, refused, created, taken)
    ensures now.Tidy(done + Elems(items), polled + Elems(refused)) && now.Delivers()
    ensures now.Covers(done + Elems(items), polled + Elems(refused))
  {
    SubscribedTidy(was, now, items, refused, created, taken, done, polled);
    forall h | h in done && h !in polled
      ensures now.IsLive(h)
    {
      var id :| was.Carries(id, h);
      assert now.Carries(id, h);
    }
    forall h | h in taken
      ensures now.IsLive(h)
    {
      assert now.Carries(created.value, h);
    }
    forall id, h | now.Carries(id, h)
      ensures id in now.callbacks
    {
      if created.None? || id != created.value {
        assert was.Carries(id, h);
      }
    }
  }

  lemma SubscribedTidy(was: Link, now: Link, items: seq<nat>, refused: seq<nat>, created: Option<nat>,
                       taken: set<nat>, done: set<nat>, polled: set<nat>)
    requires items != [] && NoRepeats(items) && Elems(items) !! done
    requires was.Tidy(done, polled) && Subscribed(was, now, items, refused, created, taken)
    ensures now.Tidy(done + Elems(items), polled + Elems(refused))
  {
    forall id | id in now.subs
      ensures now.Sided(id, done + Elems(items), polled + Elems(refused))
    {
      if created != Some(id) {
        assert was.Sided(id, done, polled);
      } else if taken != {} {
        var h :| h in taken;
        assert h in now.subs[id];
      }
    }
    forall id, other, h | id in now.subs && other in now.subs && h in now.subs[id] && h in now.subs[other]
      ensures id == other
    {
      Origin(was, now, items, refused, created, taken, done, polled, id, h);
      Origin(was, now, items, refused, created, taken, done, polled, other, h);
    }
  }

  /** What a subscription holds is new in the created one and old in the others. */
  lemma Origin(was: Link, now: Link, items: seq<nat>, refused: seq<nat>, created: Option<nat>, taken: set<nat>,
               done: set<nat>, polled: set<nat>, id: nat, h: nat)
    requires was.Tidy(done, polled) && Subscribed(was, now, items, refused, created, taken)
    requires id in now.subs && h in now.subs[id]
    ensures if created == Some(id) then h in items else id in was.subs && h in was.subs[id] && h in done
  {
    if created != Some(id) {
      assert was.Sided(id, done, polled);
    }
  }

  /** Targets polled without asking. */
  lemma PollMore(l: Link, done: set<nat>, polled: set<nat>, more: set<nat>)
    requires l.Tidy(done, polled) && l.Covers(done, polled) && more !! done
    ensures l.Tidy(done + more, polled + more) && l.Covers(done + more, polled + more)
  {
    forall id | id in l.subs
      ensures l.Sided(id, done + more, polled + more)
    {
      assert l.Sided(id, done, polled);
    }
  }

  /** Recreating a subscription with nothing refused leaves its targets where they were, unless the server
      gives the new one the id of the old: then the client forgets the new one as well, and its targets, were
      they not polled, are in no subscription it keeps. */
  lemma RecreatedCovers(was: Link, gone: Link, now: Link, id: nat, created: Option<nat>, taken: set<nat>,
                        done: set<nat>, polled: set<nat>)
    requires was.Tidy(done, polled) && was.Delivers() && id in was.subs
    requires Deleted(was, gone, id)
    requires Subscribed(gone, now, was.subs[id], [], created, taken)
    ensures created.Some?
    ensures var r := Recreated(now, id, created.value); r.Tidy(done, polled) && r.Delivers()
    ensures var r := Recreated(now, id, created.value);
            r.Covers(done, polled) <==> was.Covers(done, polled) && (created != Some(id) || id in was.doubled)
  {
    assert was.Sided(id, done, polled);
    assert was.subs[id][0] in Elems(was.subs[id]);
    assert taken == Elems(was.subs[id]);
    FilterAll(was.subs[id], now.monitored);
    RecreatedTidy(was, gone, now, id, created.value, done, polled);
    RecreatedLive(was, gone, now, id, created.value, done, polled);
  }

  /** One subscription deleted, or the request lost: the others are untouched. */
  ghost predicate Deleted(was: Link, gone: Link, id: nat) {
    && gone == was.(accepted := gone.accepted, callbacks := was.callbacks - {id})
    && (forall k :: k in gone.accepted ==> k in was.accepted && gone.accepted[k] == was.accepted[k])
    && forall k :: k in was.accepted && k != id ==> k in gone.accepted
  }

  /** The old id forgotten once the new subscription is there. */
  ghost function Recreated(now: Link, id: nat, made: nat): Link {
    now.(subs := now.subs - {id}, doubled := if id in now.doubled then now.doubled - {id} + {made} else now.doubled)
  }

  /** Made anew under `made`, with every item accepted. */
  ghost predicate Remade(was: Link, gone: Link, now: Link, id: nat, made: nat) {
    && Deleted(was, gone, id) && id in was.subs && made !in gone.accepted
    && now.monitored == was.monitored + Elems(was.subs[id])
    && now.subs == was.subs[made := was.subs[id]]
    && now.accepted == gone.accepted[made := Elems(was.subs[id])]
    && now.callbacks == gone.callbacks + {made} && now.doubled == was.doubled - {made}
  }

  lemma RecreatedTidy(was: Link, gone: Link, now: Link, id: nat, made: nat, done: set<nat>, polled: set<nat>)
    requires was.Tidy(done, polled) && was.Delivers() && Remade(was, gone, now, id, made)
    ensures var r := Recreated(now, id, made); r.Tidy(done, polled) && r.Delivers()
  {
    var r := Recreated(now, id, made);
    assert was.Sided(id, done, polled);
    forall k | k in r.subs
      ensures r.Sided(k, done, polled)
    {
      if k != made {
        assert was.Sided(k, done, polled);
      }
    }
    forall k, h | r.Carries(k, h)
      ensures k in r.callbacks
    {
      if k != made {
        assert was.Carries(k, h);
      }
    }
  }

  lemma RecreatedLive(was: Link, gone: Link, now: Link, id: nat, made: nat, done: set<nat>, polled: set<nat>)
    requires was.Tidy(done, polled) && Remade(was, gone, now, id, made)
    ensures var r := Recreated(now, id, made);
            r.Covers(done, polled) <==> was.Covers(done, polled) && (made != id || id in was.doubled)
  {
    var r := Recreated(now, id, made);
    assert was.Sided(id, done, polled);
    forall h | h in done && h !in polled
      ensures r.IsLive(h) <==> was.IsLive(h) && (made != id || h !in was.subs[id])
    {
      StillLive(was, gone, now, id, made, done, polled, h);
    }
    if made == id && id !in was.doubled {
      var h := was.subs[id][0];
      assert h in Elems(was.subs[id]) && h in done && h !in polled;
      assert !r.IsLive(h);
    }
  }

  lemma StillLive(was: Link, gone: Link, now: Link, id: nat, made: nat, done: set<nat>, polled: set<nat>, h: nat)
    requires was.Tidy(done, polled) && Remade(was, gone, now, id, made) && h in done && h !in polled
    ensures Recreated(now, id, made).IsLive(h) <==> was.IsLive(h) && (made != id || h !in was.subs[id])
  {
    var r := Recreated(now, id, made);
    assert was.Sided(id, done, polled);
    if h in was.subs[id] {
      assert id !in was.doubled && was.Carries(id, h);
      if made != id {
        assert r.Carries(made, h);
      }
    } else {
      if was.IsLive(h) {
        var k :| was.Carries(k, h);
        assert r.Carries(k, h);
      }
      if r.IsLive(h) {
        var k :| r.Carries(k, h);
        assert was.Carries(k, h);
      }
    }
  }

  /** A server that gives the new subscription the id just deleted: the client keeps none for its target, though
      its messages still arrive. */
  lemma ReusedIdLoses()
    ensures var was, now := Link({1}, map[5 := [1]], map[5 := {1}], {5}, {}), Link({1}, map[5 := [1]], map[5 := {1}], {5}, {});
            var gone := was.(accepted := map[], callbacks := {});
            && was.Tidy({1}, {}) && was.Covers({1}, {}) && Deleted(was, gone, 5)
            && Subscribed(gone, now, [1], [], Some(5), {1})
            && var r := Recreated(now, 5, 5);
               !r.Covers({1}, {}) && r.subs == map[] && r.accepted == map[5 := {1}] && r.callbacks == {5}
  {
    var was := Link({1}, map[5 := [1]], map[5 := {1}], {5}, {});
    assert was.Carries(5, 1);
    assert Filter([1], {1}) == [1] by {
      FilterAll([1], {1});
    }
  }

  /** An emptied subscription that could not be deleted: its target is polled and still kept in it. */
  lemma LeftoverDoubles()
    ensures var was, now := Link({}, map[], map[], {}, {}), Link({}, map[5 := [1]], map[5 := {}], {}, {5});
            && Subscribed(was, now, [1], [1], Some(5), {}) && now.Tidy({1}, {1}) && now.Covers({1}, {1})
            && !now.OneSide({1})
  {
    var now := Link({}, map[5 := [1]], map[5 := {}], {}, {5});
    assert 5 in now.subs && 1 in now.subs[5];
  }

  /** With no subscription and every target polled, coverage is plain. */
  lemma PolledCovers(l: Link, targets: set<nat>)
    requires l.monitored == {} && l.subs == map[] && l.doubled == {}
    ensures l.Tidy(targets, targets) && l.Covers(targets, targets) && l.Delivers()
  {}

  /** The handlers of messages are no part of what covers the targets. */
  lemma CallbacksAside(l: Link, callbacks: set<nat>, done: set<nat>, polled: set<nat>)
    requires l.Tidy(done, polled)
    ensures var r := l.(callbacks := callbacks); r.Tidy(done, polled) && (r.Covers(done, polled) <==> l.Covers(done, polled))
  {
    var r := l.(callbacks := callbacks);
    forall id | id in r.subs
      ensures r.Sided(id, done, polled)
    {
      assert l.Sided(id, done, polled);
    }
    forall h
      ensures l.IsLive(h) <==> r.IsLive(h)
    {
      if l.IsLive(h) {
        SameLive(l, r, h);
      }
      if r.IsLive(h) {
        SameLive(r, l, h);
      }
    }
  }

  lemma SameLive(l: Link, r: Link, h: nat)
    requires r == l.(callbacks := r.callbacks) && l.IsLive(h)
    ensures r.IsLive(h)
  {
    var id :| l.Carries(id, h);
    assert r.Carries(id, h);
  }

  /** A target is both kept in a subscription and polled exactly when some subscription is doubled. */
  lemma OneSideIff(l: Link, done: set<nat>, polled: set<nat>)
    requires l.Tidy(done, polled)
    ensures l.OneSide(polled) <==> l.doubled == {}
  {
    forall id | id in l.subs
      ensures l.Sided(id, done, polled)
    {}
    if id :| id in l.doubled {
      assert l.Sided(id, done, polled) && l.subs[id][0] in Elems(l.subs[id]);
    }
  }

  /** Intervals hold targets, every target belongs to one of them, once. */
  ghost predicate Grouped(groups: seq<seq<nat>>) {
    && [] !in groups
    && (forall g :: 0 <= g < |groups| ==> NoRepeats(groups[g]))
    && (forall g, other, h :: 0 <= g < |groups| && 0 <= other < |groups| && h in groups[g] && h in groups[other] ==> g == other)
  }

  class Transport {
    const polling: bool        // transport "poll"
    const readChunk: nat
    const monitorChunk: nat

    // Resolved targets by interval, those to poll for their type, subscribed handles,
    // subscriptions by id, polled chunks.
    var groups: seq<seq<nat>>
    var variant: set<nat>
    var monitored: set<nat>
    var subs: map<nat, seq<nat>>
    var jobs: seq<seq<nat>>
    var subscribing: bool
    var publishFailed: bool
    var callbacks: set<nat>    // subscription ids the current asyncua client delivers

    // The server: the items it accepted, per subscription.
    var serverItems: map<nat, set<nat>>

    // Subscriptions whose targets are polled as well, whether a recreated one was given the id of the one
    // it replaced, and the targets dropped as undecodable.
    ghost var doubled: set<nat>
    ghost var clobbered: bool
    ghost var dropped: set<nat>

    // How many requests the link went on; on this connection, the items the server was asked to take and whether it
    // said it takes no more.
    ghost var cuts: nat
    ghost var tried: set<nat>
    ghost var said: bool

    constructor (polling: bool, readChunk: nat, monitorChunk: nat)
      requires readChunk > 0 && monitorChunk > 0
      ensures Valid() && subs == map[]
    {
      this.polling, this.readChunk, this.monitorChunk := polling, readChunk, monitorChunk;
      groups, variant, monitored, subs, jobs := [], {}, {}, map[], [];
      subscribing, publishFailed, callbacks, serverItems := false, false, {}, map[];
      doubled, clobbered, dropped := {}, false, {};
      cuts, tried, said := 0, {}, false;
    }

    // ------------------------------------------------------------ invariants

    ghost function Targets(): set<nat>
      reads `groups
    {
      Members(groups)
    }

    ghost function Polled(): set<nat>
      reads `jobs
    {
      Members(jobs)
    }

    ghost function View(): Link
      reads `monitored, `subs, `serverItems, `callbacks, `doubled
    {
      Link(monitored, subs, serverItems, callbacks, doubled)
    }

    ghost predicate Valid()
      reads this
    {
      readChunk > 0 && monitorChunk > 0 && Grouped(groups)
    }

    /** Subscriptions and jobs cover the targets, exactly unless a recreated subscription was clobbered. */
    ghost predicate Settled()
      reads this
    {
      !subscribing && Covering()
    }

    ghost predicate Covering()
      reads this
    {
      View().Tidy(Targets(), Polled() + dropped) && (AllCovered() <==> !clobbered)
    }

    /** Every target is subscribed, polled, or dropped as undecodable. */
    ghost predicate AllCovered()
      reads this
    {
      View().Covers(Targets(), Polled() + dropped)
    }

    // ------------------------------------------------------------ services

    /** CreateSubscription; the client library delivers its messages from then on. A refusal's code can say that the
        server takes no more. */
    method CreateSubscription() returns (o: Outcome, id: nat, tooMany: bool)
      modifies `serverItems, `callbacks, `cuts, `said
      ensures o.Good? ==>
                && id !in old(serverItems) && serverItems == old(serverItems)[id := {}]
                && callbacks == old(callbacks) + {id}
      ensures !o.Good? ==> unchanged(`serverItems, `callbacks)
      ensures (tooMany ==> o.Refused?) && said == (old(said) || tooMany)
      ensures cuts == old(cuts) + if o.LinkDown? then 1 else 0
    {
      o := Answer();
      id := *;
      if id in serverItems {
        o := Refused;
      }
      if o.Good? {
        serverItems, callbacks := serverItems[id := {}], callbacks + {id};
      }
      var code: bool := *;
      tooMany := o.Refused? && code;
      said, cuts := said || tooMany, cuts + if o.LinkDown? then 1 else 0;
    }

    /** CreateMonitoredItems on one chunk, within the server's limit: the server accepts any of it. A refused item's
        code can say that it takes no more. */
    method CreateMonitoredItems(id: nat, chunk: seq<nat>) returns (o: Outcome, accepted: set<nat>, tooMany: set<nat>)
      requires |chunk| <= monitorChunk
      modifies `serverItems, `cuts, `tried, `said
      ensures o.Good? ==> accepted <= Elems(chunk)
      ensures !o.Good? ==> accepted == {}
      ensures id in old(serverItems) ==> serverItems == old(serverItems)[id := old(serverItems)[id] + accepted]
      ensures id !in old(serverItems) ==> serverItems == old(serverItems)
      ensures tooMany <= Elems(chunk) - accepted && said == (old(said) || tooMany != {})
      ensures tried == old(tried) + Elems(chunk)
      ensures cuts == old(cuts) + if o.LinkDown? then 1 else 0
    {
      o := Answer();
      accepted := {};
      if o.Good? {
        var any: set<nat> := *;
        accepted := set h | h in chunk && h in any;
      }
      if id in serverItems {
        serverItems := serverItems[id := serverItems[id] + accepted];
      }
      var coded: set<nat> := *;
      tooMany := set h | h in chunk && h in coded && h !in accepted;
      tried, said, cuts := tried + Elems(chunk), said || tooMany != {}, cuts + if o.LinkDown? then 1 else 0;
    }

    /** DeleteSubscriptions: a request that fails may still have been carried out. */
    method DeleteSubscriptions(ids: set<nat>) returns (o: Outcome)
      modifies `serverItems, `callbacks, `cuts
      ensures callbacks == old(callbacks) - ids
      ensures forall id :: id in serverItems ==> id in old(serverItems) && serverItems[id] == old(serverItems)[id]
      ensures forall id :: id in old(serverItems) && id !in ids ==> id in serverItems && serverItems[id] == old(serverItems)[id]
      ensures cuts == old(cuts) + if o.LinkDown? then 1 else 0
    {
      o := Answer();
      var survive: set<nat> := *;
      serverItems := serverItems - (if o.Good? then ids else ids - survive);
      callbacks := callbacks - ids;
      cuts := cuts + if o.LinkDown? then 1 else 0;
    }

    // ------------------------------------------------------------ transport

    /** Every one of the items was asked for, alone or with its subscription, unless the server said it takes no more. */
    ghost predicate Trying(was: set<nat>, saidBefore: bool, items: seq<nat>, raised: bool, full: bool)
      reads `tried, `said
    {
      && was <= tried <= was + Elems(items) && (saidBefore ==> said)
      && (!raised ==> (full ==> said) && (full || Elems(items) <= tried))
    }

    /** One subscription for `items`, in chunks. `raised` is a lost link; otherwise `refused` lists what
        the server does not take, and once it is full the rest is not asked for. */
    method Subscribe(items: seq<nat>, wasFull: bool)
      returns (raised: bool, refused: seq<nat>, full: bool, created: Option<nat>, ghost accepted: set<nat>)
      requires items != [] && NoRepeats(items) && monitorChunk > 0 && (wasFull ==> said)
      modifies `subs, `monitored, `serverItems, `callbacks, `doubled, `publishFailed, `cuts, `tried, `said
      ensures !raised ==> Subscribed(old(View()), View(), items, refused, created, accepted)
      ensures old(cuts) <= cuts && (raised ==> old(cuts) < cuts)
      ensures Trying(old(tried), old(said), items, raised, full)
    {
      raised, refused, full, created, accepted := false, [], wasFull, None, {};
      if full {
        refused := items;
        return;
      }
      var o, id, tooMany := CreateSubscription();
      Interfere();
      if o.LinkDown? {
        raised := true;
        return;
      }
      if o.Refused? {
        refused, full := items, tooMany;
        tried := tried + Elems(items);
        return;
      }
      created := Some(id);
      raised, refused, full, accepted := Populate(id, items);
    }

    /** Registers a created subscription and fills it; one left with no item is deleted again. */
    method Populate(id: nat, items: seq<nat>)
      returns (raised: bool, refused: seq<nat>, full: bool, ghost accepted: set<nat>)
      requires items != [] && NoRepeats(items) && monitorChunk > 0
      requires id in serverItems && serverItems[id] == {}
      modifies `subs, `monitored, `serverItems, `callbacks, `doubled, `publishFailed, `cuts, `tried, `said
      ensures old(cuts) <= cuts && (raised ==> old(cuts) < cuts)
      ensures Trying(old(tried), old(said), items, raised, full)
      ensures !raised ==> Refusal(items, accepted, refused) && Became(monitored, items, accepted, old(monitored))
      ensures !raised && accepted != {} ==>
                && subs == old(subs)[id := Filter(items, monitored)]
                && serverItems == old(serverItems)[id := accepted] && unchanged(`callbacks)
                && doubled == old(doubled) - {id}
      ensures !raised && accepted == {} ==>
                && serverItems - {id} == old(serverItems) - {id} && (id in serverItems ==> serverItems[id] == {})
                && callbacks == old(callbacks) - {id}
                && ((subs == old(subs) - {id} && doubled == old(doubled) - {id})
                    || (subs == old(subs)[id := items] && doubled == old(doubled) + {id}))
    {
      subs, doubled := subs[id := items], doubled - {id};
      raised, refused, full, accepted := SubscribeItems(id, items);
      if raised {
        return;
      }
      if |refused| == |items| {
        raised := Drop(id);
        return;
      }
      subs := subs[id := Filter(items, monitored)];
    }

    /** A subscription left with no item is deleted, or kept if that fails. */
    method Drop(id: nat) returns (raised: bool)
      requires id in subs && id !in doubled && id in serverItems && serverItems[id] == {}
      modifies `subs, `serverItems, `callbacks, `doubled, `publishFailed, `cuts
      ensures old(cuts) <= cuts && (raised ==> old(cuts) < cuts)
      ensures serverItems - {id} == old(serverItems) - {id} && (id in serverItems ==> serverItems[id] == {})
      ensures callbacks == old(callbacks) - {id}
      ensures (subs == old(subs) - {id} && doubled == old(doubled)) || (subs == old(subs) && doubled == old(doubled) + {id})
    {
      raised := false;
      var reply := DeleteSubscriptions({id});
      Interfere();
      if reply.Good? {
        subs := subs - {id};
      } else {
        doubled := doubled + {id};
        var coded: bool := *;  // a lost link may answer with a status code
        raised := reply.LinkDown? && !coded;
      }
    }

    method SubscribeItems(id: nat, items: seq<nat>)
      returns (raised: bool, refused: seq<nat>, full: bool, ghost accepted: set<nat>)
      requires NoRepeats(items) && monitorChunk > 0
      requires id in serverItems && serverItems[id] == {}
      modifies `monitored, `serverItems, `publishFailed, `cuts, `tried, `said
      ensures old(cuts) <= cuts && (raised ==> old(cuts) < cuts)
      ensures Trying(old(tried), old(said), items, raised, full)
      ensures serverItems == old(serverItems)[id := accepted]
      ensures !raised ==> Refusal(items, accepted, refused) && Became(monitored, items, accepted, old(monitored))
    {
      raised, refused, full, accepted := false, [], false, {};
      var start := 0;
      while start < |items|
        invariant 0 <= start <= |items| && !raised
        invariant serverItems == old(serverItems)[id := accepted]
        invariant Refusal(items[..start], accepted, refused)
        invariant Became(monitored, items[..start], accepted, old(monitored))
        invariant old(cuts) <= cuts && Trying(old(tried), old(said), items[..start], raised, full)
      {
        var stop := if start + monitorChunk < |items| then start + monitorChunk else |items|;
        var chunk := items[start..stop];
        assert items[..stop] == items[..start] + chunk;
        raised, refused, full, accepted :=
          SubscribeNext(id, chunk, items[..start], refused, full, accepted, old(monitored), old(tried), old(said));
        if raised {
          assert Elems(items[..stop]) <= Elems(items);
          return;
        }
        start := stop;
      }
      assert items[..start] == items;
    }

    /** One chunk more, not asked for once the server is full. */
    method SubscribeNext(id: nat, chunk: seq<nat>, ghost before: seq<nat>, refused0: seq<nat>, wasFull: bool,
                         ghost accepted0: set<nat>, ghost monitored0: set<nat>, ghost tried0: set<nat>, ghost said0: bool)
      returns (raised: bool, refused: seq<nat>, full: bool, ghost accepted: set<nat>)
      requires id in serverItems && serverItems[id] == accepted0 && NoRepeats(chunk) && |chunk| <= monitorChunk
      requires forall h :: h in chunk ==> h !in before
      requires Refusal(before, accepted0, refused0) && Became(monitored, before, accepted0, monitored0)
      requires Trying(tried0, said0, before, false, wasFull)
      modifies `monitored, `serverItems, `publishFailed, `cuts, `tried, `said
      ensures old(cuts) <= cuts && (raised ==> old(cuts) < cuts)
      ensures Trying(tried0, said0, before + chunk, raised, full)
      ensures serverItems == old(serverItems)[id := accepted]
      ensures !raised ==>
                Refusal(before + chunk, accepted, refused) && Became(monitored, before + chunk, accepted, monitored0)
    {
      raised, full, accepted := false, wasFull, accepted0;
      if full {
        refused := refused0 + chunk;
      } else {
        ghost var taken;
        var more;
        raised, more, full, taken := SubscribeChunk(id, chunk);
        refused, accepted := refused0 + more, accepted + taken;
      }
    }

    method SubscribeChunk(id: nat, chunk: seq<nat>)
      returns (raised: bool, refused: seq<nat>, full: bool, ghost taken: set<nat>)
      requires id in serverItems && NoRepeats(chunk) && |chunk| <= monitorChunk
      modifies `monitored, `serverItems, `publishFailed, `cuts, `tried, `said
      ensures old(cuts) <= cuts && (raised ==> old(cuts) < cuts)
      ensures tried == old(tried) + Elems(chunk)
      ensures !raised ==> said == (old(said) || full)
      ensures old(said) ==> said
      ensures serverItems == old(serverItems)[id := old(serverItems)[id] + taken]
      ensures !raised ==> Refusal(chunk, taken, refused)
      ensures !raised ==> monitored == old(monitored) - Elems(chunk) + taken
    {
      // Registered first: the initial values can be published before the reply.
      monitored := monitored + Elems(chunk);
      var reply, accepted, tooMany := CreateMonitoredItems(id, chunk);
      taken := accepted;
      Interfere();
      raised, refused, full := reply.LinkDown?, [], false;
      if raised {
        return;
      }
      var i := 0;
      while i < |chunk|
        modifies `monitored
        invariant 0 <= i <= |chunk|
        invariant monitored == old(monitored) + Elems(chunk) - (Elems(chunk[..i]) - accepted)
        invariant forall h :: h in refused <==> h in chunk[..i] && h !in accepted
        invariant |refused| <= i && (|refused| == i <==> forall h :: h in chunk[..i] ==> h !in accepted)
        invariant full <==> exists h :: h in chunk[..i] && h in tooMany
      {
        assert chunk[..i + 1] == chunk[..i] + [chunk[i]];
        if chunk[i] !in accepted {
          monitored := monitored - {chunk[i]};
          refused := refused + [chunk[i]];
          full := full || chunk[i] in tooMany;
        }
        i := i + 1;
      }
      assert chunk[..i] == chunk;
    }

    /** While a request is awaited, a Publish response may fail to decode. */
    method Interfere()
      modifies `publishFailed
      ensures old(publishFailed) ==> publishFailed
    {
      var decodes: bool := *;
      publishFailed := publishFailed || !decodes;
    }

    /** Of `done`, exactly what is not to be polled anyway was asked for, unless the server said it takes no more. */
    ghost predicate Tried(done: set<nat>)
      reads `tried, `said, `variant
    {
      && tried <= (if polling then {} else done - variant)
      && (!said ==> tried == if polling then {} else done - variant)
    }

    /** Subscribes or polls every resolved target, and schedules the polled chunks. */
    method StartTransport() returns (raised: bool)
      requires readChunk > 0 && monitorChunk > 0 && Grouped(groups)
      modifies `subs, `monitored, `serverItems, `callbacks, `doubled, `publishFailed, `cuts, `tried, `said
      modifies `jobs, `subscribing, `dropped, `clobbered
      ensures !raised ==> Settled() && AllCovered() && View().Delivers() && dropped == {}
      ensures old(cuts) <= cuts && (raised ==> old(cuts) < cuts)
      ensures !raised ==> Tried(Targets())
      ensures !raised && publishFailed ==> monitored == {} && Polled() == Targets()
      ensures !raised ==> forall chunk :: chunk in jobs ==> 0 < |chunk| <= readChunk
    {
      var polled;
      raised, polled := Begin();
      if !raised {
        Schedule(polled);
      }
    }

    /** A connection starts with nothing subscribed or asked for; then interval by interval. */
    method Begin() returns (raised: bool, polled: seq<seq<nat>>)
      requires monitorChunk > 0 && Grouped(groups)
      modifies `subs, `monitored, `serverItems, `callbacks, `doubled, `publishFailed, `cuts, `tried, `said
      modifies `subscribing, `dropped, `clobbered
      ensures !raised ==> Reached(Targets(), polled) && Tried(Targets())
      ensures old(cuts) <= cuts && (raised ==> old(cuts) < cuts)
      ensures dropped == {} && !clobbered
    {
      monitored, subs, doubled := {}, map[], {};
      dropped, clobbered := {}, false;
      subscribing, publishFailed := true, false;
      tried, said := {}, false;
      raised, polled := StartGroups();
    }

    /** The polled chunks become jobs; a Publish that failed to decode meanwhile is acted on. */
    method Schedule(polled: seq<seq<nat>>)
      requires readChunk > 0 && dropped == {} && !clobbered
      requires Reached(Targets(), polled)
      modifies `subs, `monitored, `serverItems, `callbacks, `doubled, `jobs, `subscribing, `dropped, `clobbered, `cuts
      ensures Settled() && AllCovered() && View().Delivers() && dropped == {}
      ensures old(cuts) <= cuts
      ensures publishFailed ==> monitored == {} && Polled() == Targets()
      ensures forall chunk :: chunk in jobs ==> 0 < |chunk| <= readChunk
    {
      ToChunks(polled);
      assert Polled() + dropped == Members(polled);
      if publishFailed && monitored != {} {
        FallBack();
      }
    }

    method ToChunks(polled: seq<seq<nat>>)
      requires readChunk > 0
      modifies `jobs, `subscribing
      ensures !subscribing && Polled() == Members(polled)
      ensures forall chunk :: chunk in jobs ==> 0 < |chunk| <= readChunk
    {
      jobs := ChunkAll(polled, readChunk);
      ChunkAllMembers(polled, readChunk);
      subscribing := false;
    }

    /** Every target polled and no subscription. */
    method FallBack()
      requires readChunk > 0 && !subscribing && monitored != {}
      modifies `subs, `monitored, `serverItems, `callbacks, `doubled, `jobs, `dropped, `clobbered, `cuts
      ensures Settled() && AllCovered() && View().Delivers() && dropped == {}
      ensures monitored == {} && Polled() == Targets() && old(cuts) <= cuts
      ensures forall chunk :: chunk in jobs ==> 0 < |chunk| <= readChunk
    {
      PollEverything();
      PolledCovers(View(), Targets());
      assert Polled() + dropped == Targets();
    }

    method StartGroups() returns (raised: bool, polled: seq<seq<nat>>)
      requires monitorChunk > 0 && Grouped(groups)
      requires monitored == {} && subs == map[] && doubled == {} && tried == {} && !said
      modifies `subs, `monitored, `serverItems, `callbacks, `doubled, `publishFailed, `cuts, `tried, `said
      ensures !raised ==> Reached(Targets(), polled) && Tried(Targets())
      ensures old(cuts) <= cuts && (raised ==> old(cuts) < cuts)
    {
      raised, polled := false, [];
      var full := false;
      var i := 0;
      while i < |groups|
        invariant 0 <= i <= |groups| && !raised
        invariant Reached(Members(groups[..i]), polled) && Tried(Members(groups[..i]))
        invariant old(cuts) <= cuts && (full ==> said)
      {
        assert groups[..i + 1] == groups[..i] + [groups[i]];
        MembersSnoc(groups[..i], groups[i]);
        forall h | h in groups[i]
          ensures h !in Members(groups[..i])
        {
          if h in Members(groups[..i]) {
            var other := MembersWhere(groups[..i], h);
            assert false;
          }
        }
        raised, polled, full := StartGroup(groups[i], polled, full, Members(groups[..i]));
        if raised {
          return;
        }
        i := i + 1;
      }
      assert groups[..i] == groups;
    }

    /** The targets of `done` are subscribed or polled so far. */
    ghost predicate Reached(done: set<nat>, polled: seq<seq<nat>>)
      reads `monitored, `subs, `serverItems, `callbacks, `doubled
    {
      View().Tidy(done, Members(polled)) && View().Covers(done, Members(polled)) && View().Delivers()
    }

    /** One interval: what may change type is polled, the rest subscribed, what is refused polled. */
    method StartGroup(targets: seq<nat>, polled: seq<seq<nat>>, wasFull: bool, ghost done: set<nat>)
      returns (raised: bool, nowPolled: seq<seq<nat>>, full: bool)
      requires monitorChunk > 0 && NoRepeats(targets)
      requires forall h :: h in targets ==> h !in done
      requires Reached(done, polled) && Tried(done) && (wasFull ==> said)
      modifies `subs, `monitored, `serverItems, `callbacks, `doubled, `publishFailed, `cuts, `tried, `said
      ensures !raised ==> Reached(done + Elems(targets), nowPolled) && Tried(done + Elems(targets)) && (full ==> said)
      ensures old(cuts) <= cuts && (raised ==> old(cuts) < cuts)
    {
      raised, nowPolled, full := false, polled, wasFull;
      var aside, items := Split(targets);
      if aside != [] {
        nowPolled := nowPolled + [aside];
        MembersSnoc(polled, aside);
        PollMore(View(), done, Members(polled), Elems(aside));
      }
      if items != [] {
        raised, nowPolled, full := StartItems(items, nowPolled, full, done + Elems(aside));
      }
    }

    method StartItems(items: seq<nat>, polled: seq<seq<nat>>, wasFull: bool, ghost done: set<nat>)
      returns (raised: bool, nowPolled: seq<seq<nat>>, full: bool)
      requires monitorChunk > 0 && items != [] && NoRepeats(items) && Elems(items) !! done
      requires Reached(done, polled) && (wasFull ==> said)
      modifies `subs, `monitored, `serverItems, `callbacks, `doubled, `publishFailed, `cuts, `tried, `said
      ensures !raised ==> Reached(done + Elems(items), nowPolled)
      ensures old(cuts) <= cuts && (raised ==> old(cuts) < cuts)
      ensures Trying(old(tried), old(said), items, raised, full)
    {
      nowPolled := polled;
      var refused, created;
      ghost var accepted;
      raised, refused, full, created, accepted := Subscribe(items, wasFull);
      if !raised {
        SubscribedCovers(old(View()), View(), items, refused, created, accepted, done, Members(polled));
        if refused != [] {
          MembersSnoc(nowPolled, refused);
          nowPolled := nowPolled + [refused];
        }
      }
    }

    /** The targets polled without asking, and those to subscribe. */
    method Split(targets: seq<nat>) returns (aside: seq<nat>, items: seq<nat>)
      requires NoRepeats(targets)
      ensures NoRepeats(items) && Elems(aside) !! Elems(items) && Elems(aside) + Elems(items) == Elems(targets)
      ensures forall h :: h in items <==> h in targets && !polling && h !in variant
    {
      if polling {
        return targets, [];
      }
      aside := Filter(targets, variant);
      items := Filter(targets, Elems(targets) - variant);
    }

    /** A Publish response could not be decoded: drop every subscription and poll every target. Deferred
        while targets are being subscribed. */
    method PollEverything()
      requires readChunk > 0
      modifies `subs, `monitored, `serverItems, `callbacks, `doubled, `jobs, `dropped, `clobbered, `cuts
      ensures subscribing || old(monitored) == {} ==>
                View() == old(View()) && jobs == old(jobs) && dropped == old(dropped) && clobbered == old(clobbered)
      ensures !subscribing && old(monitored) != {} ==>
                && subs == map[] && monitored == {} && doubled == {} && Polled() == Targets() && dropped == {}
                && !clobbered
      ensures !subscribing && old(monitored) != {} ==> forall chunk :: chunk in jobs ==> 0 < |chunk| <= readChunk
      ensures serverItems.Keys <= old(serverItems).Keys
      ensures old(cuts) <= cuts
    {
      if subscribing || monitored == {} {
        return;
      }
      var ids := subs.Keys;
      monitored, subs, doubled := {}, map[], {};
      jobs := ChunkAll(groups, readChunk);
      ChunkAllMembers(groups, readChunk);
      dropped, clobbered := {}, false;
      var o := DeleteSubscriptions(ids);
    }

    /** Deletes one subscription, best effort, and subscribes its items again under a new id. If the server
        takes them all, its targets are as they were, exactly unless the new id is the old and nothing else
        polls them. */
    method Replace(id: nat) returns (raised: bool, refused: seq<nat>, ghost created: Option<nat>)
      requires Covering() && View().Delivers() && id in subs && monitorChunk > 0
      modifies `subs, `monitored, `serverItems, `callbacks, `doubled, `clobbered, `publishFailed, `cuts, `tried, `said
      ensures old(cuts) <= cuts && (raised ==> old(cuts) < cuts)
      ensures !raised && refused == [] ==> Covering() && View().Delivers()
      ensures !raised && refused == [] ==>
                (AllCovered() <==> old(AllCovered()) && (created != Some(id) || id in old(doubled)))
    {
      ghost var was := View();
      assert was.Sided(id, Targets(), Polled() + dropped);
      ghost var gone, taken;
      raised, refused, created, gone, taken := MakeAnew(id);
      if !raised {
        Exchange(id, refused, created, was, gone, taken);
      }
    }

    /** The old subscription forgotten for the new one. */
    method Exchange(id: nat, ghost refused: seq<nat>, ghost created: Option<nat>, ghost was: Link, ghost gone: Link,
                    ghost taken: set<nat>)
      requires was.Tidy(Targets(), Polled() + dropped) && was.Delivers() && id in was.subs
      requires was.Covers(Targets(), Polled() + dropped) <==> !clobbered
      requires Deleted(was, gone, id) && Subscribed(gone, View(), was.subs[id], refused, created, taken)
      modifies `subs, `doubled, `clobbered
      ensures refused == [] ==> Covering() && View().Delivers()
      ensures refused == [] ==>
                (AllCovered() <==> was.Covers(Targets(), Polled() + dropped) && (created != Some(id) || id in was.doubled))
    {
      ghost var now := View();
      Forget(id, created, id in was.doubled);
      if refused == [] {
        RecreatedCovers(was, gone, now, id, created, taken, Targets(), Polled() + dropped);
      }
    }

    /** The old subscription deleted, best effort, and its items subscribed. */
    method MakeAnew(id: nat)
      returns (raised: bool, refused: seq<nat>, ghost created: Option<nat>, ghost gone: Link, ghost taken: set<nat>)
      requires id in subs && subs[id] != [] && NoRepeats(subs[id]) && monitorChunk > 0
      modifies `subs, `monitored, `serverItems, `callbacks, `doubled, `publishFailed, `cuts, `tried, `said
      ensures old(cuts) <= cuts && (raised ==> old(cuts) < cuts)
      ensures Deleted(old(View()), gone, id)
      ensures !raised ==> Subscribed(gone, View(), old(subs[id]), refused, created, taken)
    {
      var items := subs[id];
      var o := DeleteSubscriptions({id});
      gone := View();
      var full, made;
      raised, refused, full, made, taken := Subscribe(items, false);
      created := made;
    }

    /** The old id goes last, whatever the new one; `twice` if its targets are polled as well. */
    method Forget(id: nat, ghost created: Option<nat>, ghost twice: bool)
      modifies `subs, `doubled, `clobbered
      ensures created.Some? ==> View() == Recreated(old(View()), id, created.value)
      ensures clobbered == (old(clobbered) || (created == Some(id) && !twice))
    {
      subs := subs - {id};
      clobbered := clobbered || (created == Some(id) && !twice);
      if created.Some? && id in doubled {
        doubled := doubled - {id} + {created.value};
      }
    }

    /** A polled chunk: its undecodable items are dropped from it. */
    method PollChunk(j: nat, undecodable: set<nat>)
      requires j < |jobs|
      modifies `jobs, `dropped
      ensures Polled() + dropped == old(Polled() + dropped)
      ensures old(dropped) <= dropped <= old(dropped) + undecodable
      ensures |jobs| == |old(jobs)| && forall k :: 0 <= k < |jobs| && k != j ==> jobs[k] == old(jobs)[k]
      ensures forall h :: h in jobs[j] <==> h in old(jobs)[j] && h !in undecodable
    {
      var kept := Filter(jobs[j], Elems(jobs[j]) - undecodable);
      MembersUpdate(jobs, j, kept);
      dropped := dropped + (Elems(jobs[j]) - Elems(kept));
      jobs := jobs[j := kept];
    }

    // ------------------------------------------------------------ across connections

    /** A new asyncua client delivers nothing yet. */
    method NewClient()
      requires Valid()
      modifies `callbacks
      ensures Valid() && callbacks == {}
      ensures old(Settled()) ==> Settled() && (AllCovered() <==> old(AllCovered()))
    {
      ghost var was := View();
      callbacks := {};
      if old(Settled()) {
        CallbacksAside(was, {}, Targets(), Polled() + dropped);
      }
    }

    /** A resumed session's subscriptions are delivered through the new client. */
    method Rebind()
      requires Valid()
      modifies `callbacks
      ensures Valid() && View().Delivers()
      ensures old(Settled()) ==> Settled() && (AllCovered() <==> old(AllCovered()))
    {
      ghost var was := View();
      callbacks := subs.Keys;
      if old(Settled()) {
        CallbacksAside(was, subs.Keys, Targets(), Polled() + dropped);
      }
    }

    /** A new session holds no subscription. */
    method NewSession()
      requires Valid()
      modifies `serverItems, `subs
      ensures Valid() && subs == map[]
    {
      serverItems, subs := map[], map[];
    }

    /** Every mapped node resolved anew; the old subscriptions are deleted first, best effort, and they only. */
    method Resolve(found: seq<seq<nat>>, untyped: set<nat>)
      requires Valid() && Grouped(found)
      modifies `groups, `variant, `serverItems, `callbacks, `cuts
      ensures Valid() && groups == found && variant == untyped
      ensures callbacks == old(callbacks) - subs.Keys
      ensures forall id :: id in serverItems ==> id in old(serverItems) && serverItems[id] == old(serverItems)[id]
      ensures forall id :: id in old(serverItems) && id !in subs ==> id in serverItems
      ensures old(cuts) <= cuts
    {
      var o := DeleteSubscriptions(subs.Keys);
      groups, variant := found, untyped;
    }
  }
}
