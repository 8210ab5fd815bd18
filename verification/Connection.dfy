/**
 Connecting, staying connected and reconnecting: which session a connect ends up with, when a resumed
 session's subscriptions are kept, and that every target is covered whenever the client is ready,
 whatever the link cut before.
 */
module Connection {
  import opened Services
  import S = Sessions
  import T = Transports

  /** How a connect ended. */
  datatype Connected = NotConnected | Kept | Rebuilt

  /** How one attempt to connect goes, request by request: ending the old connection, the new asyncua client, its
      channel, the detached session's activation and closing, a new session's creation, its limits, the
      NamespaceArray, discovery with whether it finds other nodes, and whether the link still holds at the end. */
  datatype Trip = Trip(detach: S.Detaching, made: bool, channel: bool, activate: Outcome, gone: bool, close: Reply,
                       create: Reply, activateNew: Outcome, limits: bool, arrayRead: bool, browsed: bool, changed: bool, linked: bool)
  {
    /** A session to keep that the server still holds is resumed. */
    predicate Opens() {
      made && channel && activate.Good?
    }

    /** Nothing is cut or refused before the subscriptions. */
    predicate Uncut() {
      && made && channel && activate.Good? && create.outcome.Good? && activateNew.Good?
      && limits && arrayRead && browsed
    }

    /** Nothing is cut before the subscriptions are kept or rebuilt, and discovery finds the same nodes. */
    predicate Compares() {
      arrayRead && browsed && !changed
    }
  }

  /** How far a connect on a resumed session got: to the end of its checks or cut, what it remembers of the
      NamespaceArray, and whether it rebuilds. */
  datatype Exam = Exam(done: bool, remembered: Option<nat>, rebuild: bool)

  function Compared(before: Option<nat>, version: nat, t: Trip): Exam {
    if before.None? then Exam(true, None, false)
    else if !t.arrayRead then Exam(false, None, false)
    else Exam(true, Some(version), before.value != version)
  }

  function Examined(before: Option<nat>, discovery: bool, version: nat, t: Trip): Exam {
    var x := Compared(before, version, t);
    if !x.done || !discovery then x
    else if !t.arrayRead then x.(done := false)
    else Exam(t.browsed, Some(version), x.rebuild || t.changed)
  }

  /** The array remembered after connects past opening, `resolved` being that of the last rebuild. */
  function Remembered(resolved: Option<nat>, history: seq<Option<nat>>): Option<nat> {
    if history == [] then resolved else history[|history| - 1]
  }

  /** A connect past opening since the rebuild, and the last of them read nothing or this very version. */
  predicate Forgotten(history: seq<Option<nat>>, version: nat) {
    history != [] && (history[|history| - 1].None? || history[|history| - 1] == Some(version))
  }

  class Client {
    const sessions: S.Sessions
    const transport: T.Transport
    const discovery: bool

    var connected: bool
    var renew: bool              // the next connect must not resume
    var ready: bool              // subscriptions and jobs match the session
    var namespaces: Option<nat>  // the NamespaceArray read on this connection, as a version

    var nsArray: nat             // the server's NamespaceArray

    // The session the subscriptions belong to; the array the targets were resolved under, if any is named by
    // URI; what each connect past opening since then remembered of it.
    ghost var subsSession: nat
    ghost var resolvedUnder: Option<nat>
    ghost var history: seq<Option<nat>>

    // The sessions given up, and those of them an attempt without a client left in place.
    ghost var abandoned: set<nat>
    ghost var slipped: set<nat>

    constructor (polling: bool, discovery: bool, readChunk: nat, monitorChunk: nat)
      requires readChunk > 0 && monitorChunk > 0
      ensures Valid() && !connected && !renew && sessions.Handed()
      ensures sessions.live == {} && sessions.losses == 0
      ensures fresh(sessions) && fresh(transport)
    {
      sessions := new S.Sessions();
      transport := new T.Transport(polling, readChunk, monitorChunk);
      this.discovery := discovery;
      connected, renew, ready, namespaces, nsArray := false, false, false, None, 0;
      subsSession, resolvedUnder, history, abandoned, slipped := 0, None, [], {}, {};
    }

    ghost predicate Valid()
      reads this, sessions, transport
    {
      Sound() && Dropped()
    }

    ghost predicate Sound()
      reads this, sessions, transport
    {
      && sessions.Valid() && transport.Valid() && Flags()
      && (ready ==> Fit()) && (connected ==> transport.View().Delivers())
    }

    ghost predicate Flags()
      reads this`connected, this`ready, this`renew, this`abandoned, this`slipped, sessions
    {
      && (connected ==> ready && !renew)
      && (connected || renew ==> sessions.current.Some? && sessions.detached.None?)
      && (renew ==> sessions.current.value in abandoned && sessions.current.value !in slipped)
      && forall s :: s in abandoned ==> s <= sessions.last
    }

    /** Subscriptions and jobs match the session, and the array remembered is what the past makes it. */
    ghost predicate Fit()
      reads this`subsSession, this`resolvedUnder, this`history, this`namespaces, sessions, transport
    {
      && transport.Settled() && (forall s: nat :: sessions.Tracks(s) ==> s == subsSession)
      && (resolvedUnder.Some? ==> namespaces == Remembered(resolvedUnder, history))
    }

    /** A session given up is left to be closed, unless it slipped. */
    ghost predicate Dropped()
      reads this`abandoned, this`slipped, this`renew, sessions
    {
      && (forall s :: s in abandoned && sessions.Tracks(s) && !renew && s !in slipped ==>
            sessions.current.None? && sessions.detached == Some(S.Detached(s, false)))
      && (forall s :: s in slipped && sessions.Tracks(s) && !renew ==>
            sessions.current == Some(s) || sessions.detached == Some(S.Detached(s, true)))
    }

    /** The same once the old connection is ended, whatever token its client still holds. */
    ghost predicate Unkept()
      reads this`abandoned, this`slipped, sessions
    {
      && (forall s :: s in abandoned && sessions.Tracks(s) && s !in slipped ==> Held() != Some(s))
      && (forall s :: s in slipped && sessions.Tracks(s) ==> sessions.detached == Some(S.Detached(s, true)))
    }

    /** The session the next connect would resume. */
    ghost function Keeps(): Option<nat>
      reads this`renew, sessions
    {
      if sessions.current.Some? then if renew then None else sessions.current else Held()
    }

    /** The detached session, if it is to be kept. */
    ghost function Held(): Option<nat>
      reads sessions
    {
      if sessions.detached.Some? && sessions.detached.value.keep then Some(sessions.detached.value.session) else None
    }

    /** The targets were resolved under another NamespaceArray. */
    ghost predicate Stale()
      reads this`resolvedUnder, this`nsArray
    {
      resolvedUnder.Some? && resolvedUnder.value != nsArray
    }

    /** The NamespaceArray and the discovered nodes are what they were, as far as they are looked at. */
    ghost predicate Same(before: Option<nat>, t: Trip)
      reads this`nsArray
    {
      && (before.Some? ==> t.arrayRead && before.value == nsArray)
      && (discovery ==> t.arrayRead && t.browsed && !t.changed)
    }

    // ------------------------------------------------------------ connecting

    /** Connects if not connected; after a deliberate disconnect never on the old session, but for an attempt
        that came to no client just after it. `found`, `untyped` and `qualified` are what resolving the mapped
        nodes would give now: the targets, those without a type, and whether any is named by URI. */
    method EnsureConnected(found: seq<seq<nat>>, untyped: set<nat>, qualified: bool, t: Trip) returns (r: Connected)
      requires Valid() && !connected && T.Grouped(found)
      modifies this, sessions, transport
      ensures Valid() && !renew && nsArray == old(nsArray) && abandoned == old(abandoned)
      ensures connected <==> !r.NotConnected? && t.linked
      ensures t.Uncut() && transport.cuts == old(transport.cuts) ==> !r.NotConnected?
      ensures r.Kept? <==> t.Opens() && old(ready && Keeps().Some? && Keeps().value in sessions.live) && Same(old(namespaces), t)
      ensures !r.NotConnected? ==> ready
      ensures r.Rebuilt? ==> transport.AllCovered() && transport.groups == found && !Stale()
      ensures ready && !r.Rebuilt? ==> old(ready) && transport.subs == old(transport.subs)
                                       && (transport.AllCovered() <==> old(transport.AllCovered()))
      ensures old(Keeps().Some? && Keeps().value in sessions.live) && t.Opens() ==>
                sessions.current == old(Keeps()) && sessions.live == old(sessions.live)
      ensures r.Kept? ==> t.Opens() && old(Keeps().Some? && Keeps().value in sessions.live)
      // On a resumed session, the NamespaceArray check.
      ensures old(ready && Keeps().Some? && Keeps().value in sessions.live) && t.Opens() ==>
                Checked(old(namespaces), old(history), old(resolvedUnder), r, t)
      ensures r.Kept? && Stale() ==> Forgotten(old(history), nsArray)
      ensures old(ready && Stale() && Keeps().Some? && Keeps().value in sessions.live) && t.Opens() && t.Compares() ==>
                (r.Kept? && Stale() <==> Forgotten(old(history), nsArray))
      // Sessions given up.
      ensures forall s :: s in old(abandoned) && old(sessions.Tracks(s)) && s in old(sessions.live) && t.Opens() ==>
                (sessions.current == Some(s) <==> s in old(slipped) && !old(renew))
      ensures old(renew) && !t.made && !t.detach.forgets ==> old(sessions.current.value) in slipped
      ensures !t.made ==> r.NotConnected? && sessions.current == (if t.detach.forgets then None else old(sessions.current))
      ensures !t.made && !t.detach.open ==> sessions.live == old(sessions.live)
      ensures sessions.losses == old(sessions.losses) ==> sessions.orphans == old(sessions.orphans)
    {
      HangUp(t);
      r := Connect(found, untyped, qualified, t);
    }

    /** Ends the old connection; its session is kept unless it was given up. */
    method HangUp(t: Trip)
      requires Valid() && !connected
      modifies this`renew, this`slipped, sessions
      ensures Sound() && sessions.Handed() && !renew && sessions.last == old(sessions.last)
      ensures if t.made then Unkept() else Dropped()
      ensures old(Keeps()) == Held() && (Held().Some? ==> sessions.live == old(sessions.live))
      ensures sessions.losses == old(sessions.losses) && sessions.orphans == old(sessions.orphans)
      ensures sessions.live <= old(sessions.live) && (!t.detach.open ==> sessions.live == old(sessions.live))
      ensures sessions.current == if t.detach.forgets then None else old(sessions.current)
      ensures slipped == old(slipped) + (if old(renew) && !t.made && !t.detach.forgets then {old(sessions.current.value)} else {})
    {
      sessions.Detach(!renew, t.detach);
      if renew && !t.made && sessions.current.Some? {
        slipped := slipped + {sessions.current.value};
      }
      renew := false;
    }

    /** What a connect on a resumed session made of the NamespaceArray check. */
    ghost predicate Checked(before: Option<nat>, past: seq<Option<nat>>, under: Option<nat>, r: Connected, t: Trip)
      reads this
    {
      var x := Examined(before, discovery, nsArray, t);
      && (!x.done ==> r.NotConnected?)
      && (!x.done || !x.rebuild ==>
            ready && namespaces == x.remembered && history == past + [x.remembered] && resolvedUnder == under)
    }

    /** Connect, discover, resolve and subscribe. A resumed session's subscriptions are kept if the last
        setup completed, the NamespaceArray read before is unchanged, and so are the discovered nodes. */
    method Connect(found: seq<seq<nat>>, untyped: set<nat>, qualified: bool, t: Trip) returns (r: Connected)
      requires Sound() && !connected && !renew && sessions.Handed() && T.Grouped(found)
      requires if t.made then Unkept() else Dropped()
      modifies this`ready, this`connected, this`namespaces, this`subsSession, this`resolvedUnder, this`history, sessions, transport
      ensures Valid()
      ensures connected <==> !r.NotConnected? && t.linked
      ensures t.Uncut() && transport.cuts == old(transport.cuts) ==> !r.NotConnected?
      ensures r.Kept? <==> t.Opens() && old(ready && Held().Some? && Held().value in sessions.live) && Same(old(namespaces), t)
      ensures !r.NotConnected? ==> ready
      ensures !t.made ==> r.NotConnected? && sessions.current == old(sessions.current) && sessions.live == old(sessions.live)
      ensures r.Rebuilt? ==> transport.AllCovered() && transport.groups == found && !Stale()
      ensures ready && !r.Rebuilt? ==> old(ready) && transport.subs == old(transport.subs)
                                       && (transport.AllCovered() <==> old(transport.AllCovered()))
      ensures r.Kept? ==> t.Opens() && old(Held().Some? && Held().value in sessions.live)
      ensures old(Held().Some? && Held().value in sessions.live) && t.Opens() ==>
                sessions.current == old(Held()) && sessions.live == old(sessions.live)
      ensures t.Opens() && !old(Held().Some? && Held().value in sessions.live) ==>
                sessions.current.None? || sessions.current.value > old(sessions.last)
      ensures old(ready && Held().Some? && Held().value in sessions.live) && t.Opens() ==>
                Checked(old(namespaces), old(history), old(resolvedUnder), r, t)
      ensures sessions.losses == old(sessions.losses) ==> sessions.orphans == old(sessions.orphans)
    {
      r := NotConnected;
      var opening := Open(t);
      if !opening.Failed? {
        r := Proceed(opening.Resumed?, found, untyped, qualified, t);
      }
    }

    /** On an open session: its checks, then its subscriptions. */
    method Proceed(resumed: bool, found: seq<seq<nat>>, untyped: set<nat>, qualified: bool, t: Trip) returns (r: Connected)
      requires Valid() && !connected && !renew && (!resumed ==> !ready) && T.Grouped(found)
      requires sessions.current.Some? && sessions.detached.None?
      modifies this`ready, this`connected, this`namespaces, this`subsSession, this`resolvedUnder, this`history, transport
      ensures Valid()
      ensures connected <==> !r.NotConnected? && t.linked
      ensures t.limits && t.arrayRead && t.browsed && transport.cuts == old(transport.cuts) ==> !r.NotConnected?
      ensures r.Kept? <==> resumed && old(ready) && Same(old(namespaces), t)
      ensures !r.NotConnected? ==> ready
      ensures r.Rebuilt? ==> transport.AllCovered() && transport.groups == found && !Stale()
      ensures ready && !r.Rebuilt? ==> old(ready) && transport.subs == old(transport.subs)
                                       && (transport.AllCovered() <==> old(transport.AllCovered()))
      ensures resumed && old(ready) ==> Checked(old(namespaces), old(history), old(resolvedUnder), r, t)
    {
      r := NotConnected;
      var done, rebuild := Look(resumed, t);
      if done {
        ExaminedSame(old(namespaces), t);
        r := Finish(resumed && !rebuild, found, untyped, qualified, t);
      } else {
        ExaminedSame(old(namespaces), t);
      }
    }

    lemma ExaminedSame(before: Option<nat>, t: Trip)
      ensures var x := Examined(before, discovery, nsArray, t); x.done && !x.rebuild <==> Same(before, t)
    {}

    /** The subscriptions kept or rebuilt. */
    method Finish(keep: bool, found: seq<seq<nat>>, untyped: set<nat>, qualified: bool, t: Trip) returns (r: Connected)
      requires Valid() && !connected && !renew && (keep ==> ready) && T.Grouped(found)
      requires sessions.current.Some? && sessions.detached.None?
      requires namespaces == None || namespaces == Some(nsArray)
      modifies this`ready, this`connected, this`namespaces, this`subsSession, this`resolvedUnder, this`history, transport
      ensures Valid() && (r.Kept? <==> keep)
      ensures (connected <==> !r.NotConnected? && t.linked) && (ready <==> !r.NotConnected?)
      ensures old(transport.cuts) <= transport.cuts
      ensures t.arrayRead && transport.cuts == old(transport.cuts) ==> !r.NotConnected?
      ensures r.Rebuilt? ==> transport.AllCovered() && transport.groups == found && !Stale()
      ensures r.Kept? ==>
                && transport.subs == old(transport.subs) && (transport.AllCovered() <==> old(transport.AllCovered()))
                && namespaces == old(namespaces) && history == old(history) && resolvedUnder == old(resolvedUnder)
    {
      if keep {
        Keep(t);
        return Kept;
      }
      var done := Rebuild(found, untyped, qualified, t);
      r := if done then Rebuilt else NotConnected;
    }

    /** A resumed session's subscriptions deliver again. */
    method Keep(t: Trip)
      requires Valid() && ready && !renew && sessions.current.Some? && sessions.detached.None?
      modifies this`connected, transport`callbacks
      ensures Valid() && (transport.AllCovered() <==> old(transport.AllCovered())) && connected == t.linked
    {
      transport.Rebind();
      connected := t.linked;
    }

    /** What was read of the NamespaceArray before is set aside, and compared with what is read now. */
    method Look(resumed: bool, t: Trip) returns (done: bool, rebuild: bool)
      requires Valid() && !connected && !renew && (!resumed ==> !ready)
      modifies this`namespaces, this`history
      ensures namespaces == None || namespaces == Some(nsArray)
      ensures Valid() && (resumed && !ready && done ==> rebuild)
      ensures t.limits && t.arrayRead && t.browsed ==> done
      ensures resumed && ready ==>
                var x := Examined(old(namespaces), discovery, nsArray, t);
                && done == x.done && namespaces == x.remembered && (done ==> rebuild == x.rebuild)
                && history == old(history) + [x.remembered]
    {
      var before := namespaces;
      namespaces := None;
      done, rebuild := Examine(resumed, before, t);
      history := history + [namespaces];
    }

    /** Builds subscriptions and jobs from nothing; until they are complete the client is not ready. */
    method Rebuild(found: seq<seq<nat>>, untyped: set<nat>, qualified: bool, t: Trip) returns (done: bool)
      requires transport.Valid() && !connected && !renew && T.Grouped(found)
      requires sessions.Valid() && Dropped() && sessions.current.Some? && sessions.detached.None?
      requires forall s :: s in abandoned ==> s <= sessions.last
      requires namespaces == None || namespaces == Some(nsArray)
      modifies this`ready, this`connected, this`namespaces, this`subsSession, this`resolvedUnder, this`history, transport
      ensures Valid() && (done <==> ready) && connected == (done && t.linked)
      ensures old(transport.cuts) <= transport.cuts && (t.arrayRead && transport.cuts == old(transport.cuts) ==> done)
      ensures done ==> transport.AllCovered() && transport.groups == found && !Stale()
    {
      ready := false;
      done := Setup(found, untyped, qualified, t);
      if done {
        Arrive(t);
      }
    }

    /** The setup is complete: this session's, under the array remembered now. */
    method Arrive(t: Trip)
      requires sessions.Valid() && transport.Valid() && Dropped() && !renew && !ready && !connected
      requires sessions.current.Some? && sessions.detached.None? && forall s :: s in abandoned ==> s <= sessions.last
      requires transport.Settled() && transport.View().Delivers() && (resolvedUnder.Some? ==> namespaces == resolvedUnder)
      modifies this`ready, this`connected, this`subsSession, this`history
      ensures Valid() && ready && connected == t.linked
    {
      subsSession, history := sessions.current.value, [];
      ready, connected := true, t.linked;
    }

    /** A new asyncua client and its channel; on it the detached session, or a new one. */
    method Open(t: Trip) returns (r: S.Opening)
      requires Sound() && !connected && !renew && sessions.Handed()
      requires if t.made then Unkept() else Dropped()
      modifies this`ready, sessions, transport
      ensures Valid() && transport.cuts == old(transport.cuts)
      ensures t.Uncut() ==> !r.Failed?
      ensures !r.Failed? ==> sessions.current.Some? && sessions.detached.None?
      ensures r.Resumed? <==> t.Opens() && old(Held().Some? && Held().value in sessions.live)
      ensures r.Resumed? ==>
                ready == old(ready) && sessions.current == old(Held()) && sessions.live == old(sessions.live)
      ensures ready ==> old(ready) && transport.subs == old(transport.subs)
                        && (transport.AllCovered() <==> old(transport.AllCovered()))
      ensures r.Needed? ==> !ready
      ensures !t.made ==> r.Failed? && sessions.current == old(sessions.current) && sessions.live == old(sessions.live)
      ensures t.Opens() && !r.Resumed? ==> sessions.current.None? || sessions.current.value > old(sessions.last)
      ensures sessions.losses == old(sessions.losses) ==> sessions.orphans == old(sessions.orphans)
    {
      r := S.Failed;
      if !t.made {
        return;
      }
      NewClient();
      if t.channel {
        r := Enter(t);
      }
    }

    /** A new asyncua client: no session, no messages. */
    method NewClient()
      requires Sound() && !connected && !renew && sessions.Handed() && Unkept()
      modifies sessions`current, transport`callbacks
      ensures Valid() && sessions.Handed() && sessions.current.None?
      ensures ready ==> (transport.AllCovered() <==> old(transport.AllCovered()))
    {
      sessions.NewClient();
      transport.NewClient();
    }

    /** The session of a new channel. */
    method Enter(t: Trip) returns (r: S.Opening)
      requires Valid() && !connected && !renew && sessions.Handed() && sessions.current.None?
      modifies this`ready, sessions, transport`subs, transport`serverItems
      ensures Valid()
      ensures t.activate.Good? && t.create.outcome.Good? && t.activateNew.Good? ==> !r.Failed?
      ensures !r.Failed? ==> sessions.current.Some? && sessions.detached.None?
      ensures r.Resumed? <==> t.activate.Good? && old(Held().Some? && Held().value in sessions.live)
      ensures r.Resumed? ==> sessions.current == old(Held()) && sessions.live == old(sessions.live)
      ensures r.Resumed? || (r.Failed? && ready) ==> ready == old(ready) && transport.View() == old(transport.View())
      ensures ready ==> r.Resumed? || r.Failed?
      ensures t.activate.Good? && !r.Resumed? ==> sessions.current.None? || sessions.current.value > old(sessions.last)
      ensures sessions.losses == old(sessions.losses) ==> sessions.orphans == old(sessions.orphans)
    {
      r := sessions.Resume(t.activate, t.gone, t.close);
      if r.Needed? {
        var created := Anew(t);
        r := if created then S.Needed else S.Failed;
      }
    }

    /** A new session: nothing set up on it yet. */
    method Anew(t: Trip) returns (created: bool)
      requires Valid() && !connected && !renew && sessions.current.None? && sessions.detached.None?
      modifies this`ready, sessions, transport`subs, transport`serverItems
      ensures Valid() && !ready && sessions.detached.None?
      ensures created <==> t.create.outcome.Good? && t.activateNew.Good?
      ensures created ==> sessions.current.Some?
      ensures sessions.current.None? || sessions.current.value > old(sessions.last)
      ensures sessions.losses >= old(sessions.losses)
      ensures sessions.losses == old(sessions.losses) ==> sessions.orphans == old(sessions.orphans)
    {
      ready := false;
      created := sessions.Create(t.create, t.activateNew);
      if created {
        transport.NewSession();
      }
    }

    /** Operation limits on a new session; on a resumed one, why its subscriptions must be rebuilt. */
    method Examine(resumed: bool, before: Option<nat>, t: Trip) returns (done: bool, rebuild: bool)
      requires namespaces.None?
      modifies this`namespaces
      ensures namespaces == None || namespaces == Some(nsArray)
      ensures resumed && ready ==>
                var x := Examined(before, discovery, nsArray, t);
                done == x.done && namespaces == x.remembered && (done ==> rebuild == x.rebuild)
      ensures resumed && !ready && done ==> rebuild
      ensures !resumed || !ready ==>
                (done <==> (resumed || t.limits) && (discovery ==> t.arrayRead && t.browsed))
      ensures t.limits && t.arrayRead && t.browsed ==> done
    {
      done, rebuild := false, false;
      if !resumed {
        if !t.limits {
          return;
        }
      } else if !ready {
        rebuild := true;
      } else if before.Some? {
        var read := ReadNamespaces(t.arrayRead);
        if !read {
          return;
        }
        rebuild := namespaces != before;
      }
      if discovery {
        var read := ReadNamespaces(t.arrayRead);
        if !read || !t.browsed {
          return;
        }
        rebuild := rebuild || t.changed;
      }
      done := true;
    }

    /** The NamespaceArray, read once per connection. */
    method ReadNamespaces(answered: bool) returns (read: bool)
      modifies this`namespaces
      ensures read <==> old(namespaces).Some? || answered
      ensures namespaces == if old(namespaces).None? && answered then Some(nsArray) else old(namespaces)
    {
      read := true;
      if namespaces.None? {
        read := answered;
        if read {
          namespaces := Some(nsArray);
        }
      }
    }

    /** Resolves the mapped nodes and starts their transport. */
    method Setup(found: seq<seq<nat>>, untyped: set<nat>, qualified: bool, t: Trip) returns (done: bool)
      requires transport.Valid() && T.Grouped(found)
      requires namespaces == None || namespaces == Some(nsArray)
      modifies this`namespaces, this`resolvedUnder, transport
      ensures transport.Valid() && old(transport.cuts) <= transport.cuts
      ensures t.arrayRead && transport.cuts == old(transport.cuts) ==> done
      ensures done ==> transport.Settled() && transport.AllCovered() && transport.View().Delivers() && transport.groups == found
      ensures done ==> resolvedUnder == (if qualified then Some(nsArray) else None) && (qualified ==> namespaces == resolvedUnder)
    {
      transport.Resolve(found, untyped);
      resolvedUnder := None;
      if qualified {
        done := ReadNamespaces(t.arrayRead);
        if !done {
          return;
        }
        resolvedUnder := namespaces;
      }
      var raised := transport.StartTransport();
      done := !raised;
    }

    // ------------------------------------------------------------ running

    /** The link is gone: seen by a failed request or by the client library. */
    method LoseLink()
      requires Valid()
      modifies this`connected
      ensures Valid() && !connected
    {
      connected := false;
    }

    /** Failures in a row that are not the link's: the session may be what fails. */
    method Abandon()
      requires Valid() && connected
      modifies this`connected, this`renew, this`abandoned, this`slipped
      ensures Valid() && !connected && renew && abandoned == old(abandoned) + {sessions.current.value}
    {
      connected := false;
      GiveUp();
    }

    /** The next connect must not resume this session. */
    method GiveUp()
      requires sessions.Valid() && sessions.current.Some?
      modifies this`renew, this`abandoned, this`slipped
      ensures sessions.current.value <= sessions.last
      ensures renew && abandoned == old(abandoned) + {sessions.current.value}
      ensures slipped == old(slipped) - {sessions.current.value}
    {
      assert sessions.Tracks(sessions.current.value);
      renew := true;
      abandoned, slipped := abandoned + {sessions.current.value}, slipped - {sessions.current.value};
    }

    /** Recreates a stalled subscription. What the server now refuses makes the client reconnect with
        a new session; a cut leaves it not ready, to be rebuilt. `read` is how reading its items once then goes, `linked`
        whether the link holds. */
    method Recreate(id: nat, read: Outcome, linked: bool) returns (rebuilt: bool, ghost created: Option<nat>)
      requires Valid() && connected && id in transport.subs
      modifies this`connected, this`ready, this`renew, this`abandoned, this`slipped, transport
      ensures Valid()
      ensures rebuilt <==> ready
      ensures !rebuilt ==> !connected
      ensures transport.cuts == old(transport.cuts) && !rebuilt ==> renew
      ensures rebuilt ==> connected == (linked && !read.LinkDown?)
      ensures rebuilt ==>
                (transport.AllCovered() <==> old(transport.AllCovered()) && (created != Some(id) || id in old(transport.doubled)))
    {
      // Until done, a lost link leaves both ids in subs for the rebuild to delete.
      ready := false;
      var raised, accepted;
      raised, accepted, created := Remake(id);
      rebuilt := Adopt(raised, accepted, read, linked);
    }

    method Remake(id: nat) returns (raised: bool, accepted: bool, ghost created: Option<nat>)
      requires Fit() && transport.Valid() && transport.View().Delivers() && id in transport.subs
      modifies transport
      ensures transport.Valid() && old(transport.cuts) <= transport.cuts && (raised ==> old(transport.cuts) < transport.cuts)
      ensures !raised && accepted ==> Fit() && transport.View().Delivers()
      ensures !raised && accepted ==>
                (transport.AllCovered() <==> old(transport.AllCovered()) && (created != Some(id) || id in old(transport.doubled)))
    {
      var refused;
      raised, refused, created := transport.Replace(id);
      accepted := refused == [];
    }

    /** What a recreation makes of the client. */
    method Adopt(raised: bool, accepted: bool, read: Outcome, linked: bool) returns (rebuilt: bool)
      requires sessions.Valid() && transport.Valid() && Dropped() && connected && !ready && !renew
      requires sessions.current.Some? && sessions.detached.None? && forall s :: s in abandoned ==> s <= sessions.last
      requires !raised && accepted ==> Fit() && transport.View().Delivers()
      modifies this`connected, this`ready, this`renew, this`abandoned, this`slipped
      ensures Valid() && (rebuilt <==> ready) && (!rebuilt ==> !connected)
      ensures rebuilt <==> !raised && accepted
      ensures !rebuilt && !raised ==> renew
      ensures rebuilt ==> connected == (linked && !read.LinkDown?)
    {
      rebuilt := false;
      if raised {
        connected := false;
      } else if !accepted {
        connected := false;
        GiveUp();
      } else {
        ready, rebuilt := true, true;
        connected := linked && !read.LinkDown?;
      }
    }

    /** One polled chunk is read; its undecodable items are dropped. */
    method PollChunk(j: nat, undecodable: set<nat>, read: Outcome)
      requires Valid() && connected && j < |transport.jobs|
      modifies this`connected, transport
      ensures Valid() && (connected <==> !read.LinkDown?)
      ensures transport.Polled() + transport.dropped == old(transport.Polled() + transport.dropped)
      ensures transport.dropped <= old(transport.dropped) + if read.Good? then undecodable else {}
    {
      if read.LinkDown? {
        connected := false;
      } else if read.Good? {
        transport.PollChunk(j, undecodable);
      }
    }

    /** A Publish response could not be decoded. */
    method PublishUndecodable()
      requires Valid() && ready
      modifies transport
      ensures Valid()
      ensures old(transport.monitored) != {} ==>
                transport.Polled() == transport.Targets() && transport.subs == map[] && transport.AllCovered()
    {
      if transport.monitored != {} {
        transport.PollEverything();
        T.PolledCovers(transport.View(), transport.Targets());
        assert transport.Polled() + transport.dropped == transport.Targets();
      }
    }
  }

  // ------------------------------------------------------------ runs

  datatype Happening =
    | Connects(found: seq<seq<nat>>, untyped: set<nat>, qualified: bool, trip: Trip)
    | LinkLost
    | Abandoned
    | Recreates(id: nat, read: Outcome, linked: bool)
    | Polls(job: nat, undecodable: set<nat>, read: Outcome)
    | Undecodable
    | Expires(session: nat)
    | Renames(version: nat)

  /** Any run: whatever happens, in whatever order, the client stays valid, covers its targets whenever it
      is ready unless a recreated subscription was clobbered, and loses sessions only by the outcomes counted. */
  method AnyRun(c: Client, run: seq<Happening>)
    requires c.Valid()
    requires forall h :: h in run && h.Connects? ==> T.Grouped(h.found)
    modifies c, c.sessions, c.transport
    ensures c.Valid()
    ensures c.ready ==> (c.transport.AllCovered() <==> !c.transport.clobbered)
    ensures |c.sessions.live| <= 1 + c.sessions.losses
  {
    var i := 0;
    while i < |run|
      invariant 0 <= i <= |run| && c.Valid()
    {
      assert run[i] in run;
      Happens(c, run[i]);
      i := i + 1;
    }
    S.AtMostOne(c.sessions);
  }

  method Happens(c: Client, h: Happening)
    requires c.Valid() && (h.Connects? ==> T.Grouped(h.found))
    modifies c, c.sessions, c.transport
    ensures c.Valid()
  {
    match h
    case Connects(found, untyped, qualified, trip) =>
      if !c.connected {
        var r := c.EnsureConnected(found, untyped, qualified, trip);
      }
    case LinkLost => c.LoseLink();
    case Abandoned =>
      if c.connected {
        c.Abandon();
      }
    case Recreates(id, read, linked) =>
      if c.connected && id in c.transport.subs {
        var r, created := c.Recreate(id, read, linked);
      }
    case Polls(job, undecodable, read) =>
      if c.connected && job < |c.transport.jobs| {
        c.PollChunk(job, undecodable, read);
      }
    case Undecodable =>
      if c.ready {
        c.PublishUndecodable();
      }
    case Expires(session) => c.sessions.Expire(session);
    case Renames(version) => c.nsArray := version;
  }

  /** Ready and unclobbered, the live subscriptions hold exactly the targets not polled if none is doubled. */
  lemma ReadySides(c: Client)
    requires c.Valid() && c.ready
    ensures var t := c.transport;
            t.View().OneSide(t.Polled() + t.dropped) <==> t.doubled == {}
    ensures var t := c.transport;
            !t.clobbered && t.doubled == {} ==> t.View().Live() == t.Targets() - (t.Polled() + t.dropped)
  {
    var t := c.transport;
    T.OneSideIff(t.View(), t.Targets(), t.Polled() + t.dropped);
  }

  // ------------------------------------------------------------ where the checks fail

  const Smooth := Trip(S.Detaching(true, Reply(Good, true), false), true, true, Good, false, Reply(Good, true),
                       Reply(Good, true), Good, true, true, true, false, true)

  /** One connect cut while it reads the changed NamespaceArray: the next keeps the stale targets. */
  method CutReadKeepsStale(c: Client, found: seq<seq<nat>>)
    requires c.Valid() && c.connected && T.Grouped(found)
    requires c.sessions.current.value in c.sessions.live
    requires c.resolvedUnder == c.namespaces == Some(c.nsArray)
    modifies c, c.sessions, c.transport
    ensures c.ready && c.Stale() && c.sessions.current == old(c.sessions.current)
    ensures c.transport.subs == old(c.transport.subs)
  {
    c.nsArray := c.nsArray + 1;
    c.LoseLink();
    CutRead(c, found);
    var r := c.EnsureConnected(found, {}, true, Smooth);
  }

  /** The cut connect remembers nothing and changes nothing else. */
  method CutRead(c: Client, found: seq<seq<nat>>)
    requires c.Valid() && c.ready && !c.connected && !c.renew && c.namespaces.Some? && T.Grouped(found)
    requires c.sessions.current.Some? && c.sessions.current.value in c.sessions.live
    modifies c, c.sessions, c.transport
    ensures c.Valid() && c.ready && !c.connected && !c.renew && c.namespaces.None?
    ensures c.nsArray == old(c.nsArray) && c.resolvedUnder == old(c.resolvedUnder)
    ensures c.sessions.current == old(c.sessions.current) && c.sessions.live == old(c.sessions.live)
    ensures c.transport.subs == old(c.transport.subs)
  {
    var t := Smooth.(arrayRead := false);
    assert t.Opens() && c.Keeps() == c.sessions.current;
    var r := c.EnsureConnected(found, {}, true, t);
    assert c.Checked(old(c.namespaces), old(c.history), old(c.resolvedUnder), r, t);
  }

  /** A session given up on a dead link, and an attempt that comes to no client: the next connect resumes it. */
  method AbandonedIsResumed(c: Client, found: seq<seq<nat>>)
    requires c.Valid() && c.connected && T.Grouped(found)
    requires c.sessions.current.value in c.sessions.live
    modifies c, c.sessions, c.transport
    ensures c.sessions.current == old(c.sessions.current) && c.sessions.current.value in c.abandoned
  {
    c.Abandon();
    var r := c.EnsureConnected(found, {}, true, Smooth.(detach := S.Detaching(false, Reply(LinkDown, false), false), made := false));
    r := c.EnsureConnected(found, {}, true, Smooth);
  }
}
