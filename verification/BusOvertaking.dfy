/**
 Two publishers on one full channel.

 The pieces of a run in which an event is neither delivered nor buffered. A subscriber joins and a publisher fills its
 buffer, four steps an event. Then two publishers visit the channel. The first finds it full and drops the oldest event
 to make room; before it tries again the second sends its own event into that room, so the second attempt of the first
 fails as well, and its event is given up although it was published while the other was on its way. Each piece is four
 steps long: it says which steps are taken, that they are enabled, and how the bus stands before and after. They are put
 together where runs are treated.
 */
module BusOvertaking {
  import opened Bus

  /** s leads to a, b, c and d by these steps. */
  predicate Leads(s: State, steps: seq<Step>, a: State, b: State, c: State, d: State)
    requires |steps| == 4
  {
    && Enabled(s, steps[0]) && a == Do(s, steps[0]) && Enabled(a, steps[1]) && b == Do(a, steps[1])
    && Enabled(b, steps[2]) && c == Do(b, steps[2]) && Enabled(c, steps[3]) && d == Do(c, steps[3])
  }

  lemma ExtendedByFour(steps: seq<Step>, states: seq<State>, next: seq<Step>, a: State, b: State, c: State, d: State)
    requires IsRun(steps, states) && |next| == 4 && Leads(states[|steps|], next, a, b, c, d)
    ensures IsRun(steps + next, states + [a, b, c, d])
  {
    ExtendedByTwo(steps, states, next[0], next[1], a, b);
    assert (states + [a, b])[|steps + next[..2]|] == b;
    assert next[..2] == [next[0], next[1]] && next[2..] == [next[2], next[3]];
    ExtendedByTwo(steps + next[..2], states + [a, b], next[2], next[3], c, d);
    assert steps + next[..2] + next[2..] == steps + next;
    assert states + [a, b] + [c, d] == states + [a, b, c, d];
  }

  lemma ExtendedByTwo(steps: seq<Step>, states: seq<State>, x: Step, y: Step, a: State, b: State)
    requires IsRun(steps, states) && Enabled(states[|steps|], x) && a == Do(states[|steps|], x)
    requires Enabled(a, y) && b == Do(a, y)
    ensures IsRun(steps + [x, y], states + [a, b])
  {
    Extended(steps, states, x);
    Extended(steps + [x], states + [a], y);
    assert steps + [x] + [y] == steps + [x, y];
    assert states + [a] + [b] == states + [a, b];
  }

  /** One subscriber, no publisher at work, n events buffered. */
  predicate IsIdle(s: State, n: nat) {
    && s.pubs == map[] && s.live == {1} && 1 in s.chans
    && s.chans[1].instance == "" && |s.chans[1].buffer| == n && s.chans[1].lost == []
  }

  const PUBLISHING := [StartPublish(0, Event("", 7)), Visit(0, 1), Attempt(0), EndPublish(0)]

  lemma PublishOnce(s: State, n: nat) returns (a: State, b: State, c: State, d: State)
    requires IsIdle(s, n) && n < BUFFER
    ensures Leads(s, PUBLISHING, a, b, c, d) && IsIdle(d, n + 1)
  {
    a := Do(s, StartPublish(0, Event("", 7)));
    b := Do(a, Visit(0, 1));
    c := Do(b, Attempt(0));
    assert c.pubs[0].left == {};
    d := Do(c, EndPublish(0));
  }

  lemma {:induction false} Filled(n: nat) returns (steps: seq<Step>, states: seq<State>)
    requires n <= BUFFER
    ensures IsRun(steps, states) && IsIdle(states[|steps|], n)
  {
    if n == 0 {
      steps, states := [Subscribe("")], [START, Do(START, Subscribe(""))];
    } else {
      steps, states := Filled(n - 1);
      var a, b, c, d := PublishOnce(states[|steps|], n - 1);
      ExtendedByFour(steps, states, PUBLISHING, a, b, c, d);
      steps, states := steps + PUBLISHING, states + [a, b, c, d];
    }
  }

  const ARRIVING := [StartPublish(0, Event("", 0)), StartPublish(1, Event("", 1)), Visit(0, 1), Visit(1, 1)]

  const OVERTAKING := [Attempt(0), Drop(0), Attempt(1), Retry(0)]

  /** Two publishers about to send on a full channel. */
  predicate BothArrived(s: State) {
    && s.pubs == map[0 := Publisher(Event("", 0), {}, At(1, TrySend)), 1 := Publisher(Event("", 1), {}, At(1, TrySend))]
    && 1 in s.chans && |s.chans[1].buffer| == BUFFER && s.chans[1].lost == []
  }

  lemma BothArrive(s: State) returns (a: State, b: State, c: State, d: State)
    requires IsIdle(s, BUFFER)
    ensures Leads(s, ARRIVING, a, b, c, d) && BothArrived(d)
  {
    a := Do(s, StartPublish(0, Event("", 0)));
    b := Do(a, StartPublish(1, Event("", 1)));
    c := Do(b, Visit(0, 1));
    d := Do(c, Visit(1, 1));
    assert {1} - {1} == {};
  }

  lemma OneOvertakes(s: State) returns (a: State, b: State, c: State, d: State)
    requires BothArrived(s)
    ensures Leads(s, OVERTAKING, a, b, c, d) && 1 in d.chans && d.chans[1].lost == [Event("", 0)]
  {
    a := Do(s, Attempt(0));
    b := Do(a, Drop(0));
    c := Do(b, Attempt(1));
    d := Do(c, Retry(0));
  }
}
