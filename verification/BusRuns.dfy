/** What the bus keeps over every interleaving, and what only publishers in turn guarantee: internal/events/bus.go:35-79. */
module BusRuns {
  import opened Bus
  import opened BusOvertaking
  import opened BusTurns

  // ------------------------------------------------------------ the newest event is not the one dropped

  ghost predicate AwaitsRetry(s: State, id: nat) {
    exists t {:trigger s.pubs[t]} :: t in s.pubs && s.pubs[t].at == At(id, SendAgain)
  }

  predicate LastDropped(c: Chan) {
    c.buffer == [] && c.taken != [] && c.taken[|c.taken| - 1].Dropped?
  }

  /** A buffer emptied by a drop has a publisher about to send to it. */
  ghost predicate NewestKept(s: State) {
    forall id {:trigger s.chans[id]} | id in s.chans && LastDropped(s.chans[id]) :: AwaitsRetry(s, id)
  }

  lemma OthersAwait(s: State, t: State, pub: nat, id: nat)
    requires AwaitsRetry(s, id) && forall u | u in s.pubs && u != pub :: u in t.pubs && t.pubs[u] == s.pubs[u]
    requires !Stands(s, pub, SendAgain) || (pub in s.pubs && s.pubs[pub].at != At(id, SendAgain))
    requires id in s.chans
    ensures AwaitsRetry(t, id)
  {
    var u :| u in s.pubs && s.pubs[u].at == At(id, SendAgain);
    assert u != pub;
  }

  lemma DropAwaits(s: State, pub: nat, id: nat)
    requires Inv(s) && NewestKept(s) && Enabled(s, Drop(pub))
    requires id in s.chans && LastDropped(Do(s, Drop(pub)).chans[id])
    ensures AwaitsRetry(Do(s, Drop(pub)), id)
  {
    var t := Do(s, Drop(pub));
    if s.pubs[pub].at.id == id {
      assert t.pubs[pub].at == At(id, SendAgain);
    } else {
      OthersAwait(s, t, pub, id);
    }
  }

  /** A send leaves something in the buffer, and giving up leaves it as it is. */
  lemma SendAwaits(s: State, step: Step, pub: nat, id: nat)
    requires Inv(s) && NewestKept(s) && Enabled(s, step) && (step == Attempt(pub) || step == Retry(pub))
    requires id in s.chans && LastDropped(Do(s, step).chans[id])
    ensures AwaitsRetry(Do(s, step), id)
  {
    OthersAwait(s, Do(s, step), pub, id);
  }

  lemma OneAwaits(s: State, step: Step, id: nat)
    requires Inv(s) && NewestKept(s) && Enabled(s, step)
    requires id in Do(s, step).chans && LastDropped(Do(s, step).chans[id])
    ensures AwaitsRetry(Do(s, step), id)
  {
    var t := Do(s, step);
    match step
    case Subscribe(_) =>
    case Unsubscribe(_) =>
    case Receive(_) =>
    case StartPublish(pub, _) => OthersAwait(s, t, pub, id);
    case Visit(pub, _) => OthersAwait(s, t, pub, id);
    case Attempt(pub) => SendAwaits(s, step, pub, id);
    case EndPublish(pub) => OthersAwait(s, t, pub, id);
    case Drop(pub) => DropAwaits(s, pub, id);
    case Retry(pub) => SendAwaits(s, step, pub, id);
  }

  lemma StepKeepsNewest(s: State, step: Step)
    requires Inv(s) && NewestKept(s) && Enabled(s, step)
    ensures NewestKept(Do(s, step))
  {
    var t := Do(s, step);
    forall id | id in t.chans && LastDropped(t.chans[id]) ensures AwaitsRetry(t, id) {
      OneAwaits(s, step, id);
    }
  }

  lemma {:induction false} RunKeeps(steps: seq<Step>, states: seq<State>, k: nat)
    requires IsRun(steps, states) && k < |states|
    ensures Inv(states[k]) && NewestKept(states[k])
  {
    if k > 0 {
      RunKeeps(steps, states, k - 1);
      assert Enabled(states[k - 1], steps[k - 1]) && states[k] == Do(states[k - 1], steps[k - 1]);
      StepKeepsInv(states[k - 1], steps[k - 1]);
      StepKeepsNewest(states[k - 1], steps[k - 1]);
    }
  }

  // ------------------------------------------------------------ safety over all interleavings

  function Received(taken: seq<Taken>): seq<Event> {
    if taken == [] then []
    else
      var front, last := Received(taken[..|taken| - 1]), taken[|taken| - 1];
      if last.Delivered? then front + [last.event] else front
  }

  /** a can be had from b by leaving elements out. */
  predicate IsSubsequence(a: seq<Event>, b: seq<Event>) {
    if a == [] then true
    else if b == [] then false
    else if a[|a| - 1] == b[|b| - 1] then IsSubsequence(a[..|a| - 1], b[..|b| - 1])
    else IsSubsequence(a, b[..|b| - 1])
  }

  lemma {:induction false} SubsequenceGrows(a: seq<Event>, b: seq<Event>, tail: seq<Event>)
    requires IsSubsequence(a, b)
    ensures IsSubsequence(a + tail, b + tail)
  {
    if tail == [] {
      assert a + tail == a && b + tail == b;
    } else {
      var front := tail[..|tail| - 1];
      SubsequenceGrows(a, b, front);
      assert (a + tail)[..|a + tail| - 1] == a + front && (b + tail)[..|b + tail| - 1] == b + front;
    }
  }

  lemma {:induction false} SubsequenceSkips(a: seq<Event>, b: seq<Event>, e: Event)
    requires IsSubsequence(a, b)
    ensures IsSubsequence(a, b + [e])
    decreases |b|, 1
  {
    assert (b + [e])[..|b|] == b;
    if a != [] && a[|a| - 1] == e {
      DropsLast(a, b);
    }
  }

  lemma {:induction false} DropsLast(a: seq<Event>, b: seq<Event>)
    requires a != [] && IsSubsequence(a, b)
    ensures IsSubsequence(a[..|a| - 1], b)
    decreases |b|, 0
  {
    if a[|a| - 1] == b[|b| - 1] {
      SubsequenceSkips(a[..|a| - 1], b[..|b| - 1], b[|b| - 1]);
      assert b[..|b| - 1] + [b[|b| - 1]] == b;
    } else {
      DropsLast(a, b[..|b| - 1]);
      SubsequenceSkips(a[..|a| - 1], b[..|b| - 1], b[|b| - 1]);
      assert b[..|b| - 1] + [b[|b| - 1]] == b;
    }
  }

  lemma {:induction false} ReceivedIsPart(taken: seq<Taken>)
    ensures IsSubsequence(Received(taken), Events(taken))
  {
    if taken != [] {
      var front, last := taken[..|taken| - 1], taken[|taken| - 1];
      ReceivedIsPart(front);
      assert Events(taken) == Events(front) + [last.event];
      if last.Delivered? {
        SubsequenceGrows(Received(front), Events(front), [last.event]);
      } else {
        SubsequenceSkips(Received(front), Events(front), last.event);
      }
    }
  }

  /**
   Whatever the interleaving: buffers stay within their bound; what was delivered and then buffered is an ordered part
   of the matching events sent; each channel is closed at most once; and with no publisher at work on it the newest
   event sent was delivered or is still buffered.
   */
  lemma Safety(steps: seq<Step>, states: seq<State>, k: nat, id: nat)
    requires IsRun(steps, states) && k < |states| && id in states[k].chans
    ensures var c := states[k].chans[id];
      && |c.buffer| <= BUFFER
      && IsSubsequence(Received(c.taken) + c.buffer, c.sent)
      && (forall e | e in c.sent :: c.instance == "" || e.instance == "" || c.instance == e.instance)
      && c.closings <= 1
      && (c.sent != [] && !AwaitsRetry(states[k], id) ==>
            (if c.buffer != [] then c.buffer[|c.buffer| - 1] == c.sent[|c.sent| - 1]
             else c.taken != [] && c.taken[|c.taken| - 1] == Delivered(c.sent[|c.sent| - 1])))
  {
    RunKeeps(steps, states, k);
    var c := states[k].chans[id];
    ReceivedIsPart(c.taken);
    SubsequenceGrows(Received(c.taken), Events(c.taken), c.buffer);
    assert c.buffer == [] ==> Events(c.taken) + c.buffer == Events(c.taken);
    assert LastDropped(c) ==> AwaitsRetry(states[k], id);
  }

  lemma StepSparesClosed(s: State, step: Step, id: nat)
    requires Inv(s) && Enabled(s, step) && id in s.chans
    ensures id in Do(s, step).chans
    ensures s.chans[id].closings > 0 ==>
      Do(s, step).chans[id].sent == s.chans[id].sent && Do(s, step).chans[id].closings == s.chans[id].closings
  {
    assert s.chans[id].closings > 0 ==> id !in s.live;
  }

  /** Once a channel is closed no publisher stands at it, so nothing is sent to it, and it stays closed. */
  lemma {:induction false} NoSendAfterClose(steps: seq<Step>, states: seq<State>, j: nat, k: nat, id: nat)
    requires IsRun(steps, states) && j <= k < |states| && id in states[j].chans && states[j].chans[id].closings > 0
    ensures id in states[k].chans && states[k].chans[id].sent == states[j].chans[id].sent
    ensures states[k].chans[id].closings == states[j].chans[id].closings
    ensures forall t :: !HeldBy(states[k], t, id)
  {
    RunKeeps(steps, states, k);
    if j < k {
      NoSendAfterClose(steps, states, j, k - 1, id);
      RunKeeps(steps, states, k - 1);
      assert Enabled(states[k - 1], steps[k - 1]) && states[k] == Do(states[k - 1], steps[k - 1]);
      StepSparesClosed(states[k - 1], steps[k - 1], id);
    }
  }

  // ------------------------------------------------------------ one publisher at a time on a channel

  /** Where publishers come to a channel in turn every matching event is sent, and none is given up. */
  lemma {:induction false} SerialLosesNothing(steps: seq<Step>, states: seq<State>, k: nat, id: nat)
    requires IsRun(steps, states) && k < |states| && id in states[k].chans
    requires forall j {:trigger states[j]} | 0 <= j <= k :: OneAt(states[j], id)
    ensures InTurn(states[k], id)
  {
    if k > 0 {
      var s, step := states[k - 1], steps[k - 1];
      if id in s.chans {
        SerialLosesNothing(steps, states, k - 1, id);
      }
      RunKeeps(steps, states, k - 1);
      assert Enabled(s, step) && states[k] == Do(s, step);
      StepKeepsTurn(s, step, id);
    }
  }

  // ------------------------------------------------------------ two publishers at once can lose the newer event

  /** A run in which a published event is neither buffered nor delivered: the other publisher took the place it had made. */
  lemma TogetherTheyLose() returns (steps: seq<Step>, states: seq<State>)
    ensures IsRun(steps, states) && 1 in states[|steps|].chans && states[|steps|].chans[1].lost == [Event("", 0)]
  {
    steps, states := Filled(BUFFER);
    var a, b, c, d := BothArrive(states[|steps|]);
    ExtendedByFour(steps, states, ARRIVING, a, b, c, d);
    steps, states := steps + ARRIVING, states + [a, b, c, d];
    a, b, c, d := OneOvertakes(d);
    ExtendedByFour(steps, states, OVERTAKING, a, b, c, d);
    steps, states := steps + OVERTAKING, states + [a, b, c, d];
  }
}
