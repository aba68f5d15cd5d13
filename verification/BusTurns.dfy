/**
 One publisher at a time on a channel: what each step of the bus keeps then.

 While only one publisher stands at a channel, no other can take the room it makes by dropping the oldest event, so its
 second attempt finds that room; what happens on other channels does not matter. `InTurn` says this for one channel:
 every matching event offered so far was sent, in order, save the one the publisher holds, and nothing was given up. A
 publisher stands at one channel at a time, so each step matters to that channel only; for all others the publisher is
 out of sight before and after, which `TurnStays` turns into the claim. One lemma for each kind of step and
 `StepKeepsTurn` for all of them.
 */
module BusTurns {
  import opened Bus

  ghost predicate OneAtATime(s: State) {
    forall t, u | t in s.pubs && u in s.pubs :: t == u
  }

  /** At most one publisher stands at the channel. */
  ghost predicate OneAt(s: State, id: nat) {
    forall t, u {:trigger HeldBy(s, t, id), HeldBy(s, u, id)} | HeldBy(s, t, id) && HeldBy(s, u, id) :: t == u
  }

  ghost predicate HeldBy(s: State, t: nat, id: nat) {
    t in s.pubs && s.pubs[t].at.At? && s.pubs[t].at.id == id
  }

  /** Every matching event is sent, in order; the one in hand is next, and after a drop there is room for it. */
  ghost predicate InTurn(s: State, id: nat)
    requires id in s.chans
  {
    var c := s.chans[id];
    && c.lost == []
    && (forall t {:trigger HeldBy(s, t, id)} | HeldBy(s, t, id) ::
          c.offered == c.sent + [s.pubs[t].event] && (s.pubs[t].at.phase == SendAgain ==> |c.buffer| < BUFFER))
    && ((forall t {:trigger HeldBy(s, t, id)} :: !HeldBy(s, t, id)) ==> c.offered == c.sent)
  }

  lemma TurnStays(s: State, t: State, pub: nat, id: nat)
    requires id in s.chans && InTurn(s, id) && id in t.chans && t.chans[id] == s.chans[id]
    requires !HeldBy(s, pub, id) && !HeldBy(t, pub, id)
    requires forall u | u != pub :: (u in s.pubs <==> u in t.pubs) && (u in s.pubs ==> t.pubs[u] == s.pubs[u])
    ensures InTurn(t, id)
  {
    forall u ensures HeldBy(t, u, id) <==> HeldBy(s, u, id) {
      assert u != pub ==> (HeldBy(t, u, id) <==> HeldBy(s, u, id));
    }
  }

  /** The only publisher at the channel is still the only one after its own step. */
  lemma OnlyHolder(s: State, t: State, pub: nat, id: nat)
    requires HeldBy(s, pub, id) && OneAt(s, id)
    requires forall u | u != pub :: (u in s.pubs <==> u in t.pubs) && (u in s.pubs ==> t.pubs[u] == s.pubs[u])
    ensures forall u :: HeldBy(t, u, id) ==> u == pub
  {
    forall u | HeldBy(t, u, id) && u != pub ensures false {
      assert HeldBy(s, u, id);
    }
  }

  lemma VisitInTurn(s: State, pub: nat, to: nat, id: nat)
    requires Inv(s) && id in s.chans && InTurn(s, id) && OneAt(s, id) && Enabled(s, Visit(pub, to)) && OneAt(Do(s, Visit(pub, to)), id)
    ensures id in Do(s, Visit(pub, to)).chans && InTurn(Do(s, Visit(pub, to)), id)
  {
    var t := Do(s, Visit(pub, to));
    if HeldBy(t, pub, id) {
      forall u ensures !HeldBy(s, u, id) {
        assert HeldBy(s, u, id) ==> u != pub && HeldBy(t, u, id);
      }
      assert t.chans[id] == Offer(s.chans[id], s.pubs[pub].event);
      assert forall u :: HeldBy(t, u, id) ==> u == pub;
    } else {
      TurnStays(s, t, pub, id);
    }
  }

  lemma AttemptInTurn(s: State, pub: nat, id: nat)
    requires Inv(s) && id in s.chans && InTurn(s, id) && OneAt(s, id) && Enabled(s, Attempt(pub))
    ensures id in Do(s, Attempt(pub)).chans && InTurn(Do(s, Attempt(pub)), id)
  {
    var t := Do(s, Attempt(pub));
    if HeldBy(s, pub, id) {
      OnlyHolder(s, t, pub, id);
      assert HeldBy(t, pub, id) || forall u :: !HeldBy(t, u, id);
    } else {
      TurnStays(s, t, pub, id);
    }
  }

  lemma DropInTurn(s: State, pub: nat, id: nat)
    requires Inv(s) && id in s.chans && InTurn(s, id) && OneAt(s, id) && Enabled(s, Drop(pub))
    ensures id in Do(s, Drop(pub)).chans && InTurn(Do(s, Drop(pub)), id)
  {
    var t := Do(s, Drop(pub));
    if HeldBy(s, pub, id) {
      assert ChanOk(s.chans[id]);
      assert HeldBy(t, pub, id);
      OnlyHolder(s, t, pub, id);
    } else {
      TurnStays(s, t, pub, id);
    }
  }

  lemma RetryInTurn(s: State, pub: nat, id: nat)
    requires Inv(s) && id in s.chans && InTurn(s, id) && OneAt(s, id) && Enabled(s, Retry(pub))
    ensures id in Do(s, Retry(pub)).chans && InTurn(Do(s, Retry(pub)), id)
  {
    var t := Do(s, Retry(pub));
    if HeldBy(s, pub, id) {
      OnlyHolder(s, t, pub, id);
    } else {
      TurnStays(s, t, pub, id);
    }
  }

  lemma ReceiveInTurn(s: State, from: nat, id: nat)
    requires Inv(s) && id in s.chans && InTurn(s, id) && Enabled(s, Receive(from))
    ensures id in Do(s, Receive(from)).chans && InTurn(Do(s, Receive(from)), id)
  {
    var t := Do(s, Receive(from));
    assert forall u :: HeldBy(t, u, id) <==> HeldBy(s, u, id);
  }

  lemma OtherInTurn(s: State, step: Step, id: nat)
    requires Inv(s) && Enabled(s, step) && id in Do(s, step).chans && (id in s.chans ==> InTurn(s, id))
    requires step.Subscribe? || step.Unsubscribe? || step.StartPublish? || step.EndPublish?
    ensures InTurn(Do(s, step), id)
  {
    var t := Do(s, step);
    assert forall u :: HeldBy(t, u, id) <==> HeldBy(s, u, id);
    assert forall u :: HeldBy(t, u, id) ==> id in s.live && id in s.chans;
  }

  lemma StepKeepsTurn(s: State, step: Step, id: nat)
    requires Inv(s) && Enabled(s, step) && id in Do(s, step).chans && (id in s.chans ==> InTurn(s, id))
    requires OneAt(s, id) && OneAt(Do(s, step), id)
    ensures InTurn(Do(s, step), id)
  {
    match step
    case Visit(pub, to) => VisitInTurn(s, pub, to, id);
    case Attempt(pub) => AttemptInTurn(s, pub, id);
    case Drop(pub) => DropInTurn(s, pub, id);
    case Retry(pub) => RetryInTurn(s, pub, id);
    case Receive(from) => ReceiveInTurn(s, from, id);
    case _ => OtherInTurn(s, step, id);
  }
}
