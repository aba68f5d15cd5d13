/**
 The event bus of internal/events/bus.go: one step per channel operation, any number of publishers at once,
 since Publish holds only a read lock.
 */
module Bus {

  datatype Event = Event(instance: string, payload: int)

  /** How an event left a subscriber's buffer. */
  datatype Taken = Delivered(event: Event) | Dropped(event: Event)

  /**
   A subscription and its channel. The other fields are a record of what happened: the matching events publishers
   turned to it with, the sends that succeeded, the receives, the events given up on, and the calls of close.
   */
  datatype Chan = Chan(instance: string, buffer: seq<Event>, offered: seq<Event>, sent: seq<Event>, taken: seq<Taken>,
                       lost: seq<Event>, closings: nat)

  /** Where a publisher is in the three selects of bus.go:65-77. */
  datatype Phase = TrySend | DropOldest | SendAgain

  datatype Position = Between | At(id: nat, phase: Phase)

  datatype Publisher = Publisher(event: Event, left: set<nat>, at: Position)

  /** chans holds every channel ever made, live the ids in the bus's map. */
  datatype State = State(chans: map<nat, Chan>, live: set<nat>, pubs: map<nat, Publisher>, next: nat)

  const BUFFER := 256

  /** bus.go:62-64 */
  predicate Matches(instance: string, e: Event) {
    instance == "" || e.instance == "" || instance == e.instance
  }

  // ------------------------------------------------------------ steps

  datatype Step =
    | Subscribe(instance: string)
    | Unsubscribe(id: nat)
    | StartPublish(pub: nat, event: Event)
    | Visit(pub: nat, to: nat)
    | Attempt(pub: nat)
    | Drop(pub: nat)
    | Retry(pub: nat)
    | EndPublish(pub: nat)
    | Receive(id: nat)

  predicate Stands(s: State, pub: nat, phase: Phase) {
    pub in s.pubs && s.pubs[pub].at.At? && s.pubs[pub].at.phase == phase && s.pubs[pub].at.id in s.chans
  }

  /** Subscribe and unsubscribe take the write lock, so they wait for every publisher. */
  predicate Enabled(s: State, step: Step) {
    match step
    case Subscribe(_) => s.pubs == map[]
    case Unsubscribe(id) => s.pubs == map[] && id in s.chans
    case StartPublish(pub, _) => pub !in s.pubs
    case Visit(pub, to) => pub in s.pubs && s.pubs[pub].at.Between? && to in s.pubs[pub].left
    case Attempt(pub) => Stands(s, pub, TrySend)
    case Drop(pub) => Stands(s, pub, DropOldest)
    case Retry(pub) => Stands(s, pub, SendAgain)
    case EndPublish(pub) => pub in s.pubs && s.pubs[pub].at.Between? && s.pubs[pub].left == {}
    case Receive(id) => id in s.chans && s.chans[id].buffer != []
  }

  function Offer(c: Chan, e: Event): Chan {
    c.(offered := c.offered + [e])
  }

  function Send(c: Chan, e: Event): Chan {
    c.(buffer := c.buffer + [e], sent := c.sent + [e])
  }

  function Take(c: Chan, how: Event -> Taken): Chan
    requires c.buffer != []
  {
    c.(buffer := c.buffer[1..], taken := c.taken + [how(c.buffer[0])])
  }

  function Do(s: State, step: Step): State
    requires Enabled(s, step)
  {
    match step
    case Subscribe(instance) =>
      var id := s.next + 1;
      s.(next := id, chans := s.chans[id := Chan(instance, [], [], [], [], [], 0)], live := s.live + {id})
    case Unsubscribe(id) =>
      if id in s.live then
        s.(live := s.live - {id}, chans := s.chans[id := s.chans[id].(closings := s.chans[id].closings + 1)])
      else s
    case StartPublish(pub, event) =>
      s.(pubs := s.pubs[pub := Publisher(event, s.live, Between)])
    case Visit(pub, to) =>
      var p := s.pubs[pub];
      if to !in s.chans || !Matches(s.chans[to].instance, p.event) then
        s.(pubs := s.pubs[pub := p.(left := p.left - {to})])
      else
        s.(pubs := s.pubs[pub := p.(left := p.left - {to}, at := At(to, TrySend))],
           chans := s.chans[to := Offer(s.chans[to], p.event)])
    case Attempt(pub) =>
      var p := s.pubs[pub];
      var c := s.chans[p.at.id];
      if |c.buffer| < BUFFER then
        s.(chans := s.chans[p.at.id := Send(c, p.event)], pubs := s.pubs[pub := p.(at := Between)])
      else s.(pubs := s.pubs[pub := p.(at := At(p.at.id, DropOldest))])
    case Drop(pub) =>
      var p := s.pubs[pub];
      var c := s.chans[p.at.id];
      s.(chans := if c.buffer != [] then s.chans[p.at.id := Take(c, e => Dropped(e))] else s.chans,
         pubs := s.pubs[pub := p.(at := At(p.at.id, SendAgain))])
    case Retry(pub) =>
      var p := s.pubs[pub];
      var c := s.chans[p.at.id];
      s.(chans := s.chans[p.at.id := if |c.buffer| < BUFFER then Send(c, p.event) else c.(lost := c.lost + [p.event])],
         pubs := s.pubs[pub := p.(at := Between)])
    case EndPublish(pub) => s.(pubs := s.pubs - {pub})
    case Receive(id) => s.(chans := s.chans[id := Take(s.chans[id], e => Delivered(e))])
  }

  const START := State(map[], {}, map[], 0)

  // ------------------------------------------------------------ invariants

  function Events(taken: seq<Taken>): seq<Event> {
    seq(|taken|, k requires 0 <= k < |taken| => taken[k].event)
  }

  /** The buffer is bounded and holds, in order, what was sent and not yet taken. */
  predicate ChanOk(c: Chan) {
    && |c.buffer| <= BUFFER
    && c.sent == Events(c.taken) + c.buffer
    && (forall e | e in c.sent :: Matches(c.instance, e))
    && (forall e | e in c.lost :: Matches(c.instance, e))
  }

  /** A publisher only holds channels that are open. */
  predicate PubOk(s: State, p: Publisher) {
    && p.left <= s.live
    && (p.at.At? ==> p.at.id in s.live && p.at.id in s.chans && Matches(s.chans[p.at.id].instance, p.event))
  }

  ghost predicate ChansOk(s: State) {
    forall id {:trigger s.chans[id]} | id in s.chans ::
      ChanOk(s.chans[id]) && id <= s.next && s.chans[id].closings == if id in s.live then 0 else 1
  }

  ghost predicate Inv(s: State) {
    && s.live <= s.chans.Keys
    && ChansOk(s)
    && forall t {:trigger s.pubs[t]} | t in s.pubs :: PubOk(s, s.pubs[t])
  }

  lemma SendOk(c: Chan, e: Event)
    requires ChanOk(c) && |c.buffer| < BUFFER && Matches(c.instance, e)
    ensures ChanOk(Send(c, e))
  {
    assert Events(c.taken) + (c.buffer + [e]) == Events(c.taken) + c.buffer + [e];
  }

  lemma TakeOk(c: Chan, how: Event -> Taken)
    requires ChanOk(c) && c.buffer != [] && forall e :: how(e).event == e
    ensures ChanOk(Take(c, how))
  {
    assert Events(c.taken + [how(c.buffer[0])]) == Events(c.taken) + [c.buffer[0]];
    assert Events(c.taken) + [c.buffer[0]] + c.buffer[1..] == Events(c.taken) + c.buffer;
  }

  /** Changing one channel to another with the same subscription that is in order. */
  lemma ChanKeeps(s: State, id: nat, c: Chan)
    requires Inv(s) && id in s.chans && ChanOk(c) && c.instance == s.chans[id].instance && c.closings == s.chans[id].closings
    ensures Inv(s.(chans := s.chans[id := c]))
  {
  }

  lemma PubKeeps(s: State, t: nat, p: Publisher)
    requires Inv(s) && PubOk(s, p)
    ensures Inv(s.(pubs := s.pubs[t := p]))
  {
  }

  lemma StepKeepsInv(s: State, step: Step)
    requires Inv(s) && Enabled(s, step)
    ensures Inv(Do(s, step))
  {
    match step
    case Subscribe(_) =>
    case Unsubscribe(id) =>
    case StartPublish(pub, event) => PubKeeps(s, pub, Publisher(event, s.live, Between));
    case Visit(pub, to) =>
      var p := s.pubs[pub];
      if Matches(s.chans[to].instance, p.event) {
        PubKeeps(s, pub, p.(left := p.left - {to}, at := At(to, TrySend)));
        ChanKeeps(s.(pubs := s.pubs[pub := p.(left := p.left - {to}, at := At(to, TrySend))]), to,
                  Offer(s.chans[to], p.event));
      } else {
        PubKeeps(s, pub, p.(left := p.left - {to}));
      }
    case Attempt(pub) =>
      var p := s.pubs[pub];
      var c := s.chans[p.at.id];
      PubKeeps(s, pub, p.(at := Between));
      if |c.buffer| < BUFFER {
        SendOk(c, p.event);
        ChanKeeps(s.(pubs := s.pubs[pub := p.(at := Between)]), p.at.id, Send(c, p.event));
      }
    case Drop(pub) =>
      var p := s.pubs[pub];
      var c := s.chans[p.at.id];
      PubKeeps(s, pub, p.(at := At(p.at.id, SendAgain)));
      if c.buffer != [] {
        TakeOk(c, e => Dropped(e));
        ChanKeeps(s.(pubs := s.pubs[pub := p.(at := At(p.at.id, SendAgain))]), p.at.id, Take(c, e => Dropped(e)));
      }
    case Retry(pub) =>
      var p := s.pubs[pub];
      var c := s.chans[p.at.id];
      PubKeeps(s, pub, p.(at := Between));
      if |c.buffer| < BUFFER {
        SendOk(c, p.event);
        ChanKeeps(s.(pubs := s.pubs[pub := p.(at := Between)]), p.at.id, Send(c, p.event));
      } else {
        ChanKeeps(s.(pubs := s.pubs[pub := p.(at := Between)]), p.at.id, c.(lost := c.lost + [p.event]));
      }
    case EndPublish(pub) =>
    case Receive(id) =>
      TakeOk(s.chans[id], e => Delivered(e));
      ChanKeeps(s, id, Take(s.chans[id], e => Delivered(e)));
  }

  // ------------------------------------------------------------ runs

  /** states are what the steps lead through, from an empty bus. */
  ghost predicate IsRun(steps: seq<Step>, states: seq<State>) {
    && |states| == |steps| + 1 && states[0] == START
    && forall k {:trigger steps[k]} | 0 <= k < |steps| :: Enabled(states[k], steps[k]) && states[k + 1] == Do(states[k], steps[k])
  }

  lemma Extended(steps: seq<Step>, states: seq<State>, step: Step)
    requires IsRun(steps, states) && Enabled(states[|steps|], step)
    ensures IsRun(steps + [step], states + [Do(states[|steps|], step)])
  {
    var more, after := steps + [step], states + [Do(states[|steps|], step)];
    forall k {:trigger more[k]} | 0 <= k < |more| ensures Enabled(after[k], more[k]) && after[k + 1] == Do(after[k], more[k]) {
      if k < |steps| {
        assert more[k] == steps[k];
      }
    }
  }
}
