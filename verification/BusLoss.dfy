/** Exactly when the bus gives an event up: internal/events/bus.go:65-77. */
module BusLoss {
  import opened Bus
  import opened BusRuns

  // ------------------------------------------------------------ sends and takes on one channel

  predicate SendsTo(s: State, step: Step, id: nat)
    requires Enabled(s, step)
  {
    (step.Attempt? || step.Retry?) && s.pubs[step.pub].at.id == id && |s.chans[id].buffer| < BUFFER
  }

  /** A receive, or a publisher dropping the oldest event. */
  predicate TakesFrom(s: State, step: Step, id: nat)
    requires Enabled(s, step)
  {
    || (step.Receive? && step.id == id)
    || (step.Drop? && s.pubs[step.pub].at.id == id && s.chans[id].buffer != [])
  }

  /** A second attempt that finds the buffer full again. */
  predicate GivesUpAt(s: State, step: Step, id: nat)
    requires Enabled(s, step)
  {
    step.Retry? && s.pubs[step.pub].at.id == id && |s.chans[id].buffer| == BUFFER
  }

  lemma StepCounts(s: State, step: Step, id: nat)
    requires Inv(s) && Enabled(s, step) && id in s.chans
    ensures id in Do(s, step).chans
    ensures |Do(s, step).chans[id].buffer|
         == |s.chans[id].buffer| + (if SendsTo(s, step, id) then 1 else 0) - (if TakesFrom(s, step, id) then 1 else 0)
    ensures Do(s, step).chans[id].lost
         == s.chans[id].lost + if GivesUpAt(s, step, id) then [s.pubs[step.pub].event] else []
  {
    assert ChanOk(s.chans[id]);
  }

  ghost function Sends(steps: seq<Step>, states: seq<State>, id: nat, lo: nat, hi: nat): nat
    requires IsRun(steps, states) && hi <= |steps|
  {
    if hi <= lo then 0
    else Sends(steps, states, id, lo, hi - 1) + if SendsTo(states[hi - 1], steps[hi - 1], id) then 1 else 0
  }

  ghost function Takes(steps: seq<Step>, states: seq<State>, id: nat, lo: nat, hi: nat): nat
    requires IsRun(steps, states) && hi <= |steps|
  {
    if hi <= lo then 0
    else Takes(steps, states, id, lo, hi - 1) + if TakesFrom(states[hi - 1], steps[hi - 1], id) then 1 else 0
  }

  /** Between two states the buffer grows by what is sent and shrinks by what is taken. */
  lemma {:induction false} BufferCounts(steps: seq<Step>, states: seq<State>, id: nat, lo: nat, hi: nat)
    requires IsRun(steps, states) && lo <= hi <= |steps| && id in states[lo].chans
    ensures id in states[hi].chans
    ensures |states[hi].chans[id].buffer|
         == |states[lo].chans[id].buffer| + Sends(steps, states, id, lo, hi) - Takes(steps, states, id, lo, hi)
  {
    if lo < hi {
      BufferCounts(steps, states, id, lo, hi - 1);
      RunKeeps(steps, states, hi - 1);
      assert Enabled(states[hi - 1], steps[hi - 1]) && states[hi] == Do(states[hi - 1], steps[hi - 1]);
      StepCounts(states[hi - 1], steps[hi - 1], id);
    }
  }

  // ------------------------------------------------------------ a drop and the second attempt after it

  predicate ActsFor(step: Step, pub: nat) {
    !step.Subscribe? && !step.Unsubscribe? && !step.Receive? && step.pub == pub
  }

  ghost predicate DropsAt(steps: seq<Step>, states: seq<State>, id: nat, i: nat, pub: nat)
    requires IsRun(steps, states)
  {
    i < |steps| && steps[i] == Drop(pub) && states[i].pubs[pub].at.id == id
  }

  /** The publisher that drops an event at step i makes its next step, the second attempt, at j. */
  ghost predicate IsPair(steps: seq<Step>, states: seq<State>, id: nat, i: nat, j: nat)
    requires IsRun(steps, states)
  {
    && i < j < |steps| && steps[j].Retry? && DropsAt(steps, states, id, i, steps[j].pub)
    && forall m | i < m < j :: !ActsFor(steps[m], steps[j].pub)
  }

  lemma {:induction false} Undisturbed(steps: seq<Step>, states: seq<State>, id: nat, i: nat, j: nat, pub: nat)
    requires IsRun(steps, states) && i < j <= |steps| && DropsAt(steps, states, id, i, pub)
    requires forall m | i < m < j :: !ActsFor(steps[m], pub)
    ensures pub in states[j].pubs && states[j].pubs[pub].at == At(id, SendAgain)
    ensures states[j].pubs[pub].event == states[i].pubs[pub].event
  {
    assert Enabled(states[j - 1], steps[j - 1]) && states[j] == Do(states[j - 1], steps[j - 1]);
    if i < j - 1 {
      Undisturbed(steps, states, id, i, j - 1, pub);
    }
  }

  /** Whoever is about to try again has dropped an event, and done nothing since. */
  lemma {:induction false} DropComesFirst(steps: seq<Step>, states: seq<State>, id: nat, j: nat, pub: nat) returns (i: nat)
    requires IsRun(steps, states) && j <= |steps|
    requires pub in states[j].pubs && states[j].pubs[pub].at == At(id, SendAgain)
    ensures i < j && DropsAt(steps, states, id, i, pub) && forall m | i < m < j :: !ActsFor(steps[m], pub)
  {
    var s, step := states[j - 1], steps[j - 1];
    assert Enabled(s, step) && states[j] == Do(s, step);
    if step == Drop(pub) {
      i := j - 1;
    } else {
      i := DropComesFirst(steps, states, id, j - 1, pub);
    }
  }

  /** What stands in the buffer after the drop, with what is sent and taken since, fills it again. */
  ghost predicate FilledBetween(steps: seq<Step>, states: seq<State>, id: nat, i: nat, j: nat)
    requires IsRun(steps, states) && i < j <= |steps|
  {
    && id in states[i + 1].chans
    && |states[i + 1].chans[id].buffer| + Sends(steps, states, id, i + 1, j) == BUFFER + Takes(steps, states, id, i + 1, j)
  }

  /**
   A second attempt gives the event up exactly when the sends of other publishers since the drop, less what was taken,
   have filled the room; otherwise the event is sent.
   */
  lemma GivenUpExactlyWhen(steps: seq<Step>, states: seq<State>, id: nat, i: nat, j: nat)
    requires IsRun(steps, states) && IsPair(steps, states, id, i, j)
    ensures id in states[j].chans && id in states[j + 1].chans
    ensures var before, after, e := states[j].chans[id], states[j + 1].chans[id], states[i].pubs[steps[j].pub].event;
      if FilledBetween(steps, states, id, i, j) then after.lost == before.lost + [e] && after.sent == before.sent
      else after.lost == before.lost && after.sent == before.sent + [e]
  {
    Undisturbed(steps, states, id, i, j, steps[j].pub);
    RunKeeps(steps, states, j);
    assert Enabled(states[i], steps[i]) && states[i + 1] == Do(states[i], steps[i]);
    assert Enabled(states[j], steps[j]) && states[j + 1] == Do(states[j], steps[j]);
    BufferCounts(steps, states, id, i + 1, j);
    StepCounts(states[j], steps[j], id);
    assert ChanOk(states[j].chans[id]);
  }

  // ------------------------------------------------------------ a channel that loses nothing

  /** A second attempt that fails comes after a drop by the same publisher. */
  lemma GivenUpInPair(steps: seq<Step>, states: seq<State>, id: nat, j: nat) returns (i: nat)
    requires IsRun(steps, states) && j < |steps| && id in states[j].chans && GivesUpAt(states[j], steps[j], id)
    ensures IsPair(steps, states, id, i, j) && FilledBetween(steps, states, id, i, j)
  {
    i := DropComesFirst(steps, states, id, j, steps[j].pub);
    assert Enabled(states[i], steps[i]) && states[i + 1] == Do(states[i], steps[i]);
    BufferCounts(steps, states, id, i + 1, j);
  }

  lemma PairGivesUp(steps: seq<Step>, states: seq<State>, id: nat, i: nat, j: nat)
    requires IsRun(steps, states) && IsPair(steps, states, id, i, j) && FilledBetween(steps, states, id, i, j)
    ensures id in states[j].chans && GivesUpAt(states[j], steps[j], id)
  {
    Undisturbed(steps, states, id, i, j, steps[j].pub);
    BufferCounts(steps, states, id, i + 1, j);
  }

  lemma {:induction false} LostMeansGivenUp(steps: seq<Step>, states: seq<State>, id: nat, k: nat)
    requires IsRun(steps, states) && k < |states| && id in states[k].chans
    ensures states[k].chans[id].lost == []
       <==> forall j | 0 <= j < k && id in states[j].chans :: !GivesUpAt(states[j], steps[j], id)
  {
    if k > 0 {
      var s, step := states[k - 1], steps[k - 1];
      assert Enabled(s, step) && states[k] == Do(s, step);
      RunKeeps(steps, states, k - 1);
      if id in s.chans {
        LostMeansGivenUp(steps, states, id, k - 1);
        StepCounts(s, step, id);
      } else {
        NotYetThere(steps, states, id, k - 1);
      }
    }
  }

  /** Channels are never forgotten. */
  lemma {:induction false} NotYetThere(steps: seq<Step>, states: seq<State>, id: nat, k: nat)
    requires IsRun(steps, states) && k < |states| && id !in states[k].chans
    ensures forall j | 0 <= j <= k :: id !in states[j].chans
  {
    if k > 0 {
      assert Enabled(states[k - 1], steps[k - 1]) && states[k] == Do(states[k - 1], steps[k - 1]);
      NotYetThere(steps, states, id, k - 1);
    }
  }

  /** A channel has lost nothing exactly when between no drop and the second attempt after it the buffer was filled again. */
  lemma LosesNothingExactlyWhen(steps: seq<Step>, states: seq<State>, id: nat, k: nat)
    requires IsRun(steps, states) && k < |states| && id in states[k].chans
    ensures states[k].chans[id].lost == []
       <==> forall i: nat, j: nat | i < j < k && IsPair(steps, states, id, i, j) :: !FilledBetween(steps, states, id, i, j)
  {
    LostMeansGivenUp(steps, states, id, k);
    forall j: nat | j < k && id in states[j].chans && GivesUpAt(states[j], steps[j], id)
      ensures exists i: nat :: i < j && IsPair(steps, states, id, i, j) && FilledBetween(steps, states, id, i, j)
    {
      var i := GivenUpInPair(steps, states, id, j);
    }
    forall i: nat, j: nat | i < j < k && IsPair(steps, states, id, i, j) && FilledBetween(steps, states, id, i, j)
      ensures id in states[j].chans && GivesUpAt(states[j], steps[j], id)
    {
      PairGivesUp(steps, states, id, i, j);
    }
  }
}
