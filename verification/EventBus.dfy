/** The bus as its methods are written, each a run of the protocol: internal/events/bus.go:35-79. */
module EventBus {
  import opened Bus
  import opened BusRuns
  import opened BusTurns
  import opened Wrappers

  /** What publishing does to a matching subscriber's buffer when nobody interferes. */
  function Pushed(buffer: seq<Event>, e: Event): seq<Event> {
    if |buffer| < BUFFER then buffer + [e] else buffer[1..] + [e]
  }

  // ------------------------------------------------------------ the state without its records

  function Buffers(s: State): map<nat, seq<Event>> {
    map id | id in s.chans :: s.chans[id].buffer
  }

  /** The bus's map of subscriptions. */
  function Subs(s: State): map<nat, string> {
    map id | id in s.live && id in s.chans :: s.chans[id].instance
  }

  /** The only publisher there is. */
  predicate Alone(s: State, e: Event, left: set<nat>, at: Position) {
    s.pubs == map[0 := Publisher(e, left, at)]
  }

  lemma SubscribeDoes(s: State, instance: string)
    requires Inv(s) && s.pubs == map[]
    ensures var t := Do(s, Subscribe(instance));
      && t.pubs == map[] && t.next == s.next + 1
      && Buffers(t) == Buffers(s)[s.next + 1 := []] && Subs(t) == Subs(s)[s.next + 1 := instance]
  {
  }

  lemma UnsubscribeDoes(s: State, id: nat)
    requires Inv(s) && s.pubs == map[] && id in s.chans
    ensures var t := Do(s, Unsubscribe(id));
      && t.pubs == map[] && t.next == s.next && id in t.chans && t.chans[id].closings == 1
      && Buffers(t) == Buffers(s) && Subs(t) == Subs(s) - {id}
  {
    assert ChanOk(s.chans[id]);
  }

  lemma StartDoes(s: State, e: Event)
    requires Inv(s) && s.pubs == map[]
    ensures var t := Do(s, StartPublish(0, e));
      && Alone(t, e, Subs(s).Keys, Between) && t.next == s.next && Buffers(t) == Buffers(s) && Subs(t) == Subs(s)
  {
    assert Subs(s).Keys == s.live;
  }

  lemma VisitDoes(s: State, e: Event, left: set<nat>, id: nat)
    requires Inv(s) && Alone(s, e, left, Between) && id in left
    ensures id in Subs(s) && Enabled(s, Visit(0, id))
    ensures var t := Do(s, Visit(0, id));
      && Alone(t, e, left - {id}, if Matches(Subs(s)[id], e) then At(id, TrySend) else Between)
      && t.next == s.next && Buffers(t) == Buffers(s) && Subs(t) == Subs(s)
  {
    assert PubOk(s, s.pubs[0]);
  }

  lemma AttemptDoes(s: State, e: Event, left: set<nat>, id: nat)
    requires Inv(s) && Alone(s, e, left, At(id, TrySend)) && id in s.chans
    ensures Enabled(s, Attempt(0))
    ensures var t, b := Do(s, Attempt(0)), s.chans[id].buffer;
      && t.next == s.next && Subs(t) == Subs(s)
      && if |b| < BUFFER then Alone(t, e, left, Between) && Buffers(t) == Buffers(s)[id := b + [e]]
         else Alone(t, e, left, At(id, DropOldest)) && Buffers(t) == Buffers(s)
  {
  }

  lemma DropDoes(s: State, e: Event, left: set<nat>, id: nat)
    requires Inv(s) && Alone(s, e, left, At(id, DropOldest)) && id in s.chans && s.chans[id].buffer != []
    ensures Enabled(s, Drop(0))
    ensures var t := Do(s, Drop(0));
      && Alone(t, e, left, At(id, SendAgain)) && t.next == s.next && Subs(t) == Subs(s)
      && Buffers(t) == Buffers(s)[id := s.chans[id].buffer[1..]]
  {
  }

  lemma RetryDoes(s: State, e: Event, left: set<nat>, id: nat)
    requires Inv(s) && Alone(s, e, left, At(id, SendAgain)) && id in s.chans && |s.chans[id].buffer| < BUFFER
    ensures Enabled(s, Retry(0))
    ensures var t := Do(s, Retry(0));
      && Alone(t, e, left, Between) && t.next == s.next && Subs(t) == Subs(s)
      && Buffers(t) == Buffers(s)[id := s.chans[id].buffer + [e]]
  {
  }

  lemma EndDoes(s: State, e: Event)
    requires Inv(s) && Alone(s, e, {}, Between)
    ensures Enabled(s, EndPublish(0))
    ensures var t := Do(s, EndPublish(0));
      t.pubs == map[] && t.next == s.next && Buffers(t) == Buffers(s) && Subs(t) == Subs(s)
  {
  }

  lemma ReceiveDoes(s: State, id: nat)
    requires Inv(s) && s.pubs == map[] && id in s.chans && s.chans[id].buffer != []
    ensures var t := Do(s, Receive(id));
      && t.pubs == map[] && t.next == s.next && Subs(t) == Subs(s)
      && Buffers(t) == Buffers(s)[id := s.chans[id].buffer[1..]]
  {
  }

  // ------------------------------------------------------------ the code

  class EventBus {
    var subs: map<nat, string>
    var buffers: map<nat, seq<Event>>
    var next: nat
    ghost var now: State
    ghost var steps: seq<Step>
    ghost var states: seq<State>

    /** The protocol's state, reached by a run with one publisher at a time. */
    ghost predicate Tracked()
      reads this
    {
      && IsRun(steps, states) && states[|steps|] == now
      && forall k {:trigger states[k]} | 0 <= k < |states| :: OneAtATime(states[k])
    }

    /** The fields are those of the protocol's state. */
    ghost predicate Agrees()
      reads this
    {
      subs == Subs(now) && buffers == Buffers(now) && next == now.next
    }

    ghost predicate Valid()
      reads this
    {
      Tracked() && Agrees() && now.pubs == map[]
    }

    constructor ()
      ensures Valid() && subs == map[] && buffers == map[]
    {
      subs, buffers, next := map[], map[], 0;
      steps, states, now := [], [START], START;
    }

    ghost method Advance(step: Step)
      requires Tracked() && Enabled(now, step) && OneAtATime(Do(now, step))
      modifies this`steps, this`states, this`now
      ensures Tracked() && now == Do(old(now), step)
    {
      Extended(steps, states, step);
      now := Do(now, step);
      steps, states := steps + [step], states + [now];
    }

    // bus.go:35-43
    method Subscribe(instance: string) returns (id: nat)
      requires Valid()
      modifies this
      ensures Valid() && id == old(next) + 1
      ensures subs == old(subs)[id := instance] && buffers == old(buffers)[id := []]
    {
      RunKeeps(steps, states, |steps|);
      SubscribeDoes(now, instance);
      Advance(Step.Subscribe(instance));
      next := next + 1;
      subs, buffers := subs[next := instance], buffers[next := []];
      id := next;
    }

    // bus.go:45-52
    method Unsubscribe(id: nat)
      requires Valid() && id in buffers
      modifies this
      ensures Valid() && subs == old(subs) - {id} && buffers == old(buffers)
      ensures id in now.chans && now.chans[id].closings == 1
    {
      RunKeeps(steps, states, |steps|);
      UnsubscribeDoes(now, id);
      Advance(Step.Unsubscribe(id));
      subs := subs - {id};
    }

    /** In the middle of publishing e, with the subscribers in left still to come. */
    ghost predicate Publishing(e: Event, left: set<nat>, at: Position)
      reads this
    {
      Tracked() && Agrees() && Alone(now, e, left, at)
    }

    // bus.go:65-66
    method TrySendTo(id: nat, e: Event, ghost left: set<nat>) returns (ok: bool)
      requires Publishing(e, left, At(id, TrySend)) && id in buffers
      modifies this
      ensures ok == (|old(buffers)[id]| < BUFFER) && subs == old(subs)
      ensures Publishing(e, left, if ok then Between else At(id, DropOldest))
      ensures buffers == if ok then old(buffers)[id := old(buffers)[id] + [e]] else old(buffers)
      ensures !ok ==> |buffers[id]| == BUFFER
    {
      RunKeeps(steps, states, |steps|);
      AttemptDoes(now, e, left, id);
      assert ChanOk(now.chans[id]);
      Advance(Attempt(0));
      ok := |buffers[id]| < BUFFER;
      if ok {
        buffers := buffers[id := buffers[id] + [e]];
      }
    }

    // bus.go:69-72
    method DropFrom(id: nat, e: Event, ghost left: set<nat>)
      requires Publishing(e, left, At(id, DropOldest)) && id in buffers && buffers[id] != []
      modifies this
      ensures Publishing(e, left, At(id, SendAgain)) && subs == old(subs)
      ensures buffers == old(buffers)[id := old(buffers)[id][1..]]
    {
      RunKeeps(steps, states, |steps|);
      DropDoes(now, e, left, id);
      Advance(Drop(0));
      buffers := buffers[id := buffers[id][1..]];
    }

    // bus.go:73-76
    method SendAgainTo(id: nat, e: Event, ghost left: set<nat>)
      requires Publishing(e, left, At(id, SendAgain)) && id in buffers && |buffers[id]| < BUFFER
      modifies this
      ensures Publishing(e, left, Between) && subs == old(subs)
      ensures buffers == old(buffers)[id := old(buffers)[id] + [e]]
    {
      RunKeeps(steps, states, |steps|);
      RetryDoes(now, e, left, id);
      Advance(Retry(0));
      buffers := buffers[id := buffers[id] + [e]];
    }

    // bus.go:65-77
    method SendTo(id: nat, e: Event, ghost left: set<nat>)
      requires Publishing(e, left, At(id, TrySend)) && id in buffers
      modifies this
      ensures Publishing(e, left, Between)
      ensures subs == old(subs) && buffers == old(buffers)[id := Pushed(old(buffers)[id], e)]
    {
      var ok := TrySendTo(id, e, left);
      if !ok {
        DropFrom(id, e, left);
        SendAgainTo(id, e, left);
      }
    }

    // bus.go:61-78
    method TurnTo(id: nat, e: Event, ghost left: set<nat>)
      requires Publishing(e, left, Between) && id in left
      modifies this
      ensures Publishing(e, left - {id}, Between) && subs == old(subs) && id in subs && id in old(buffers)
      ensures buffers == if Matches(subs[id], e) then old(buffers)[id := Pushed(old(buffers)[id], e)] else old(buffers)
    {
      RunKeeps(steps, states, |steps|);
      VisitDoes(now, e, left, id);
      Advance(Visit(0, id));
      if Matches(subs[id], e) {
        SendTo(id, e, left - {id});
      }
    }

    ghost method Begin(e: Event)
      requires Valid()
      modifies this`steps, this`states, this`now
      ensures Publishing(e, subs.Keys, Between)
    {
      RunKeeps(steps, states, |steps|);
      StartDoes(now, e);
      Advance(StartPublish(0, e));
    }

    ghost method End(e: Event)
      requires Publishing(e, {}, Between)
      modifies this`steps, this`states, this`now
      ensures Valid()
    {
      RunKeeps(steps, states, |steps|);
      EndDoes(now, e);
      Advance(EndPublish(0));
    }

    // bus.go:55-79
    method Publish(e: Event)
      requires Valid()
      modifies this
      ensures Valid() && subs == old(subs) && buffers == PushedTo(old(buffers), subs, subs.Keys, e)
      ensures IsPublished(old(buffers), subs, e, buffers)
    {
      Begin(e);
      var left := subs.Keys;
      while left != {}
        invariant left <= subs.Keys && subs == old(subs)
        invariant Publishing(e, left, Between)
        invariant buffers == PushedTo(old(buffers), subs, subs.Keys - left, e)
      {
        var id :| id in left;
        PushedToOne(old(buffers), subs, subs.Keys - left, id, e);
        assert subs.Keys - (left - {id}) == subs.Keys - left + {id};
        TurnTo(id, e, left);
        left := left - {id};
      }
      assert subs.Keys - left == subs.Keys;
      End(e);
      PushedIsPublished(old(buffers), subs, e);
    }

    // the receiving end of the channel, Subscription.C
    method Receive(id: nat) returns (e: Option<Event>)
      requires Valid() && id in buffers
      modifies this
      ensures Valid() && subs == old(subs)
      ensures old(buffers)[id] == [] ==> e == None && buffers == old(buffers)
      ensures old(buffers)[id] != [] ==>
        e == Some(old(buffers)[id][0]) && buffers == old(buffers)[id := old(buffers)[id][1..]]
    {
      if buffers[id] == [] {
        return None;
      }
      RunKeeps(steps, states, |steps|);
      ReceiveDoes(now, id);
      Advance(Step.Receive(id));
      e := Some(buffers[id][0]);
      buffers := buffers[id := buffers[id][1..]];
    }
  }

  /** The buffers with e pushed to those of some subscribers that match. */
  function PushedTo(before: map<nat, seq<Event>>, subs: map<nat, string>, some: set<nat>, e: Event): map<nat, seq<Event>> {
    map id | id in before :: if id in some && id in subs && Matches(subs[id], e) then Pushed(before[id], e) else before[id]
  }

  /** A subscriber for all instances, for the event's, or of an event for all gets it last, at the cost of the oldest of 256. */
  ghost predicate IsPublished(before: map<nat, seq<Event>>, subs: map<nat, string>, e: Event, after: map<nat, seq<Event>>) {
    && after.Keys == before.Keys
    && forall id | id in before ::
         if id in subs && (subs[id] == "" || e.instance == "" || subs[id] == e.instance) then
           after[id] == (if |before[id]| < 256 then before[id] else before[id][1..]) + [e]
         else after[id] == before[id]
  }

  lemma PushedIsPublished(before: map<nat, seq<Event>>, subs: map<nat, string>, e: Event)
    ensures IsPublished(before, subs, e, PushedTo(before, subs, subs.Keys, e))
  {
  }

  lemma PushedToOne(before: map<nat, seq<Event>>, subs: map<nat, string>, some: set<nat>, id: nat, e: Event)
    requires id !in some && id in subs
    ensures PushedTo(before, subs, some + {id}, e)
         == if id in before && Matches(subs[id], e) then PushedTo(before, subs, some, e)[id := Pushed(before[id], e)]
            else PushedTo(before, subs, some, e)
  {
  }

  /** Called one method at a time, the bus sends every matching event and gives none up. */
  lemma NothingIsLost(bus: EventBus, id: nat)
    requires bus.Valid() && id in bus.buffers
    ensures bus.now.chans[id].lost == [] && bus.now.chans[id].sent == bus.now.chans[id].offered
  {
    SerialLosesNothing(bus.steps, bus.states, |bus.steps|, id);
    assert forall t :: !HeldBy(bus.now, t, id);
  }
}
