/**
 The sessions of one server and what the client knows of them: detaching from a dead channel,
 resuming or closing the detached session on the next one, and creating a new session.
 */
module Sessions {
  import opened Chunking
  import opened Services

  /** A session whose channel is gone: resumed with its subscriptions, or closed, on the next one. */
  datatype Detached = Detached(session: nat, keep: bool)

  /** How ending a connection goes: whether its channel still carries a CloseSession, what that comes to, and
      whether the library forgets the session's token. */
  datatype Detaching = Detaching(open: bool, close: Reply, forgets: bool)

  /** ActivateSession succeeds only on a session the server holds. */
  function Activated(answer: Outcome, held: bool): Outcome {
    if answer.Good? && !held then Refused else answer
  }

  /** How the next channel opens: the detached session resumed, a new one due, or a failed connect. */
  datatype Opening = Resumed | Needed | Failed

  class Sessions {
    var current: Option<nat>          // the session of the current asyncua client
    var detached: Option<Detached>

    // The server: sessions it holds; ids are given out in order.
    var live: set<nat>
    var last: nat

    // Sessions on the server the client no longer knows of, and how many outcomes lost one:
    // a refused or failed activation, a failed close, or a creation whose reply was lost.
    ghost var orphans: set<nat>
    ghost var losses: nat

    constructor ()
      ensures Valid() && live == {} && last == losses == 0 && orphans == {} && current.None? && detached.None?
    {
      current, detached, live, last, orphans, losses := None, None, {}, 0, {}, 0;
    }

    /** `s` is the current client's session or the detached one. */
    ghost predicate Tracks(s: nat)
      reads `current, `detached
    {
      current == Some(s) || (detached.Some? && detached.value.session == s)
    }

    /** The current client and `detached` never hold two different sessions, and every session
        on the server is one the client tracks or one it lost. */
    ghost predicate Valid()
      reads this
    {
      && (current.Some? && detached.Some? ==> current.value == detached.value.session)
      && (forall s :: s in live ==> s in orphans || Tracks(s))
      && (forall s: nat :: s in live || s in orphans || Tracks(s) ==> s <= last)
      && |orphans| <= losses
    }

    /** No session would be lost by moving to a new asyncua client. */
    ghost predicate Handed()
      reads this
    {
      current.Some? && current.value in live ==> detached.Some?
    }

    /** Ends the current client's connection. Kept, the session stays on the server; else it is closed
        here if the channel still carries a request, or on the next channel. Whether the library forgets the
        token of a closed connection is not promised. */
    method Detach(keep: bool, d: Detaching)
      requires Valid()
      modifies `current, `detached, `live
      ensures Valid() && Handed()
      ensures live <= old(live) && last == old(last)
      ensures forall s :: Tracks(s) ==> old(Tracks(s))
      ensures current == if d.forgets then None else old(current)
      ensures detached == if old(current).Some? && !(!keep && d.open && d.close.outcome.Good?)
                          then Some(Detached(old(current).value, keep)) else old(detached)
      ensures live == if !keep && d.open && old(current).Some? && d.close.CarriedOut()
                      then old(live) - {old(current).value} else old(live)
    {
      var held := current;
      var closed := false;
      if !keep && held.Some? && d.open {
        CloseSession(held.value, d.close);
        closed := d.close.outcome.Good?;
      }
      if held.Some? && !closed {
        detached := Some(Detached(held.value, keep));
      }
      if d.forgets {
        current := None;
      }
      assert forall s: nat :: Tracks(s) ==> old(Tracks(s));
    }

    /** A new asyncua client has no session yet. */
    method NewClient()
      requires Valid() && Handed()
      modifies `current
      ensures Valid() && current.None? && forall s :: Tracks(s) ==> old(Tracks(s))
    {
      current := None;
    }

    /** CloseSession: a request that fails may still have been carried out. */
    method CloseSession(s: nat, reply: Reply)
      modifies `live
      ensures live == if reply.CarriedOut() then old(live) - {s} else old(live)
    {
      if reply.CarriedOut() {
        live := live - {s};
      }
    }

    /** The step between opening a channel and creating a session: a session to keep is resumed if the server
        still holds it, another one closed. Only a failed channel leaves a session to keep detached. `gone`
        is whether the failure's code says that the server no longer holds it. */
    method Resume(activate: Outcome, gone: bool, close: Reply) returns (r: Opening)
      requires Valid() && Handed()
      modifies `current, `detached, `live, `orphans, `losses
      ensures Valid() && last == old(last) && live <= old(live)
      ensures !r.Resumed? ==> Handed()
      ensures old(losses) <= losses <= old(losses) + 1
      ensures r.Resumed? <==>
                && old(detached).Some? && old(detached).value.keep
                && activate.Good? && old(detached).value.session in old(live)
      ensures r.Resumed? ==>
                && current == Some(old(detached).value.session) && detached.None?
                && live == old(live) && losses == old(losses)
      ensures r.Needed? ==> current.None? && detached.None?
      ensures forall s :: Tracks(s) ==> old(Tracks(s))
      ensures r.Failed? ==>
                && detached == old(detached) && detached.Some? && detached.value.keep
                && live == old(live) && losses == old(losses)
      ensures r.Failed? <==> old(detached).Some? && old(detached).value.keep && activate.LinkDown? && !gone
      ensures r.Needed? && old(detached).Some? ==>
                var s, resumable := old(detached).value.session, activate.Good? && old(detached).value.session in old(live);
                && live == (if resumable && close.CarriedOut() then old(live) - {s} else old(live))
                && (losses == old(losses) <==> resumable && close.outcome.Good?)
      ensures r.Needed? && old(detached).None? ==> live == old(live) && losses == old(losses)
      ensures losses == old(losses) ==> orphans == old(orphans)
    {
      var was := detached;
      current, detached := None, None;
      if was.None? {
        return Needed;
      }
      current := Some(was.value.session);
      var activated := Activated(activate, was.value.session in live);
      if activated.LinkDown? && was.value.keep && !gone {
        detached := was;
        return Failed;
      }
      if activated.Good? && was.value.keep {
        return Resumed;
      }
      Discard(activated.Good?, close);
      r := Needed;
    }

    /** Gives up the restored session: closed if it could be activated, else left to time out. */
    method Discard(activated: bool, close: Reply)
      requires Valid() && current.Some? && detached.None?
      modifies `current, `live, `orphans, `losses
      ensures Valid() && current.None?
      ensures live == if activated && close.CarriedOut() then old(live) - {old(current).value} else old(live)
      ensures (losses == old(losses) && orphans == old(orphans)) || losses == old(losses) + 1
      ensures losses == old(losses) <==> activated && close.outcome.Good?
    {
      if activated {
        CloseSession(current.value, close);
      }
      if !(activated && close.outcome.Good?) {
        Lose(current.value);
      }
      current := None;
    }

    ghost method Lose(s: nat)
      modifies `orphans, `losses
      ensures losses == old(losses) + 1
      ensures orphans == old(orphans) + (if s in live then {s} else {})
      ensures |orphans| <= |old(orphans)| + 1
    {
      losses := losses + 1;
      if s in live {
        orphans := orphans + {s};
      }
    }

    /** CreateSession and its activation. A reply lost with the link leaves a session the client never
        learns of; a failed activation one it knows. */
    method Create(create: Reply, activate: Outcome) returns (created: bool)
      requires Valid() && current.None? && detached.None?
      modifies `current, `live, `last, `orphans, `losses
      ensures Valid() && detached.None?
      ensures created <==> create.outcome.Good? && activate.Good?
      ensures create.CarriedOut() ==> last == old(last) + 1 && live == old(live) + {last}
      ensures !create.CarriedOut() ==> last == old(last) && live == old(live)
      ensures current == if create.outcome.Good? then Some(last) else None
      ensures losses == old(losses) + if create.CarriedOut() && !create.outcome.Good? then 1 else 0
      ensures orphans == old(orphans) + if create.CarriedOut() && !create.outcome.Good? then {last} else {}
    {
      created := create.outcome.Good? && activate.Good?;
      if create.outcome.Good? {
        Begin();
      } else if create.CarriedOut() {
        BeginUnseen();
      }
    }

    /** A new session the client learns of. */
    method Begin()
      requires Valid() && current.None? && detached.None?
      modifies `current, `live, `last
      ensures Valid() && last == old(last) + 1 && live == old(live) + {last} && current == Some(last)
    {
      last := last + 1;
      live := live + {last};
      current := Some(last);
    }

    /** A new session the client never learns of. */
    method BeginUnseen()
      requires Valid() && current.None? && detached.None?
      modifies `live, `last, `orphans, `losses
      ensures Valid() && last == old(last) + 1 && live == old(live) + {last}
      ensures losses == old(losses) + 1 && orphans == old(orphans) + {last}
    {
      last := last + 1;
      live := live + {last};
      Lose(last);
    }

    /** The server drops a session that timed out. */
    method Expire(s: nat)
      requires Valid()
      modifies `live
      ensures Valid() && live == old(live) - {s}
    {
      live := live - {s};
    }
  }

  /** Sessions the client lost aside, the server holds at most one; if none was ever lost, at most
      one in all. */
  lemma AtMostOne(s: Sessions)
    requires s.Valid()
    ensures |s.live - s.orphans| <= 1
    ensures |s.live| <= 1 + s.losses
  {
    var one := if s.current.Some? then {s.current.value}
               else if s.detached.Some? then {s.detached.value.session} else {};
    assert s.live - s.orphans <= one;
    Smaller(s.live - s.orphans, one);
    Smaller(s.live, s.orphans + one);
  }

  /** The bound is met: a CreateSession reply lost with the link leaves the server a session the client does
      not know of, beside the next one. */
  method LostReply() returns (s: Sessions)
    ensures fresh(s) && s.Valid() && s.losses == 1 && s.live == {1, 2} && s.orphans == {1}
    ensures !s.Tracks(1) && s.Tracks(2)
  {
    s := new Sessions();
    var made := s.Create(Reply(LinkDown, true), Good);
    made := s.Create(Reply(Good, true), Good);
  }
}
