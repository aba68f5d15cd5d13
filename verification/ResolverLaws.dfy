/** What a resolved plan is: closed, free of repeats, reachable, nearest first, and the only one. internal/mods/resolver.go:96-166. */
module ResolverLaws {
  import opened DependencyName
  import opened Resolver
  import opened ResolverPrefixes
  import opened ResolverRequests
  import opened Versions
  import opened Wrappers

  // ------------------------------------------------------------ closed and free of repeats

  lemma StepHasKey(index: Index, installed: map<string, string>, root: Request, plan: seq<Step>, src: seq<nat>, t: nat)
    requires IndexOk(index) && IsPlan(index, installed, root, plan, src) && t < |plan|
    ensures src[t] < |Requests(root, plan)| && Wanted(Requests(root, plan), src[t])
    ensures StepKey(plan[t]) == KeyOf(Requests(root, plan)[src[t]])
    ensures src[t] < |RequestsTo(root, plan, t)|
  {
    assert Answers(index, installed, root, plan, t, src[t]);
  }

  /** No package is planned twice, and the loader never. */
  lemma NoRepeats(index: Index, installed: map<string, string>, root: Request, plan: seq<Step>, src: seq<nat>)
    requires IndexOk(index) && IsPlan(index, installed, root, plan, src)
    ensures forall t | 0 <= t < |plan| :: StepKey(plan[t]) != LOADER
    ensures forall s, t | 0 <= s < t < |plan| :: StepKey(plan[s]) != StepKey(plan[t])
  {
    forall t: nat | t < |plan|
      ensures StepKey(plan[t]) != LOADER && forall s: nat | s < t :: StepKey(plan[s]) != StepKey(plan[t])
    {
      StepHasKey(index, installed, root, plan, src, t);
      forall s: nat | s < t ensures StepKey(plan[s]) != StepKey(plan[t]) {
        StepHasKey(index, installed, root, plan, src, s);
      }
    }
  }

  /** Every request but one for the loader has its step, made for the first request of that package. */
  lemma {:induction false} RequestHasStep(index: Index, installed: map<string, string>, root: Request, plan: seq<Step>,
                                          src: seq<nat>, i: nat) returns (t: nat)
    requires IndexOk(index) && IsPlan(index, installed, root, plan, src)
    requires i < |Requests(root, plan)| && KeyOf(Requests(root, plan)[i]) != LOADER
    ensures t < |plan| && StepKey(plan[t]) == KeyOf(Requests(root, plan)[i]) && src[t] <= i
    decreases i
  {
    var reqs := Requests(root, plan);
    if Wanted(reqs, i) {
      assert HasStep(reqs, src, i);
      t :| t < |src| && src[t] == i;
      StepHasKey(index, installed, root, plan, src, t);
    } else {
      var j: nat :| j < i && KeyOf(reqs[j]) == KeyOf(reqs[i]);
      t := RequestHasStep(index, installed, root, plan, src, j);
    }
  }

  /** Closed: every dependency of a chosen version is planned, the loader aside. */
  lemma PlanIsClosed(index: Index, installed: map<string, string>, root: Request, plan: seq<Step>, src: seq<nat>, s: nat,
                     d: Request)
    requires IndexOk(index) && IsPlan(index, installed, root, plan, src)
    requires s < |plan| && d in Deps(plan[s].dependencies)
    ensures KeyOf(d) == LOADER || exists t :: 0 <= t < |plan| && StepKey(plan[t]) == KeyOf(d)
  {
    if KeyOf(d) != LOADER {
      var j := DependencyIsMade(root, plan, s, d);
      var t := RequestHasStep(index, installed, root, plan, src, j);
    }
  }

  /** A step is left alone, upgraded or new as the installed version is not older, older or absent. */
  lemma InstalledDecides(index: Index, installed: map<string, string>, root: Request, plan: seq<Step>, src: seq<nat>, t: nat)
    requires IndexOk(index) && IsPlan(index, installed, root, plan, src) && t < |plan|
    ensures var s, key := plan[t], StepKey(plan[t]);
      && (s.state == Fresh <==> key !in installed)
      && (s.state == AlreadyInstalled <==> key in installed && !Older(installed[key], s.version))
      && (key in installed && Older(installed[key], s.version) ==> s.state == Upgrade(installed[key]))
  {
    StepHasKey(index, installed, root, plan, src, t);
    assert Answers(index, installed, root, plan, t, src[t]);
    if StepKey(plan[t]) in installed {
      CompareMeans(installed[StepKey(plan[t])], plan[t].version);
    }
  }

  lemma {:induction false} SourcesSpread(src: seq<nat>, bound: nat, t: nat)
    requires Increasing(src, bound) && t < |src|
    ensures t <= src[t]
  {
    if t > 0 {
      SourcesSpread(src, bound, t - 1);
    }
  }

  lemma PlanHasRoot(index: Index, installed: map<string, string>, root: Request, plan: seq<Step>, src: seq<nat>)
    requires IndexOk(index) && IsPlan(index, installed, root, plan, src)
    ensures KeyOf(root) == LOADER || (plan != [] && StepKey(plan[0]) == KeyOf(root) && src[0] == 0)
  {
    if KeyOf(root) != LOADER {
      var t := RequestHasStep(index, installed, root, plan, src, 0);
      SourcesSpread(src, |Requests(root, plan)|, t);
    }
  }

  // ------------------------------------------------------------ distances

  /** The chosen version of package a depends on package b. */
  ghost predicate Edge(plan: seq<Step>, a: string, b: string) {
    exists t: nat, d: Request :: t < |plan| && StepKey(plan[t]) == a && d in Deps(plan[t].dependencies) && KeyOf(d) == b
  }

  ghost predicate IsPath(plan: seq<Step>, p: seq<string>, from: string, to: string) {
    && p != [] && p[0] == from && p[|p| - 1] == to
    && forall i | 0 <= i < |p| - 1 :: Edge(plan, p[i], p[i + 1])
  }

  ghost predicate Linked(root: Request, plan: seq<Step>, src: seq<nat>) {
    |src| == |plan| && forall t: nat | t < |plan| :: src[t] < |RequestsTo(root, plan, t)|
  }

  lemma PlanIsLinked(index: Index, installed: map<string, string>, root: Request, plan: seq<Step>, src: seq<nat>)
    requires IndexOk(index) && IsPlan(index, installed, root, plan, src)
    ensures Linked(root, plan, src)
  {
    forall t: nat | t < |plan| ensures src[t] < |RequestsTo(root, plan, t)| {
      StepHasKey(index, installed, root, plan, src, t);
    }
  }

  /** How many dependency steps from the root the walk came to step t. */
  function Depth(root: Request, plan: seq<Step>, src: seq<nat>, t: nat): nat
    requires Linked(root, plan, src) && t < |plan|
  {
    if src[t] == 0 then 0 else 1 + Depth(root, plan, src, Maker(root, plan, t, src[t]))
  }

  /** Steps come nearest first. */
  lemma {:induction false} DepthsInOrder(root: Request, plan: seq<Step>, src: seq<nat>, s: nat, t: nat)
    requires Linked(root, plan, src) && Increasing(src, |Requests(root, plan)|) && s <= t < |plan|
    ensures Depth(root, plan, src, s) <= Depth(root, plan, src, t)
    decreases t
  {
    if s < t && src[s] != 0 {
      var p, q := Maker(root, plan, s, src[s]), Maker(root, plan, t, src[t]);
      MakersInOrder(root, plan, src[s], src[t], p, q);
      DepthsInOrder(root, plan, src, p, q);
    }
  }

  lemma PathSnoc(plan: seq<Step>, p: seq<string>, from: string, mid: string, to: string)
    requires IsPath(plan, p, from, mid) && Edge(plan, mid, to)
    ensures IsPath(plan, p + [to], from, to)
  {
  }

  /** The step's package is reachable, over as many dependencies as its depth. */
  lemma {:induction false} DepthIsReached(index: Index, installed: map<string, string>, root: Request, plan: seq<Step>,
                                          src: seq<nat>, t: nat) returns (p: seq<string>)
    requires IndexOk(index) && IsPlan(index, installed, root, plan, src) && Linked(root, plan, src) && t < |plan|
    ensures IsPath(plan, p, KeyOf(root), StepKey(plan[t])) && |p| - 1 == Depth(root, plan, src, t)
    decreases t
  {
    StepHasKey(index, installed, root, plan, src, t);
    if src[t] == 0 {
      p := [KeyOf(root)];
    } else {
      var s := Maker(root, plan, t, src[t]);
      p := DepthIsReached(index, installed, root, plan, src, s);
      MadeIsDependency(root, plan, src[t], s);
      PathSnoc(plan, p, KeyOf(root), StepKey(plan[s]), StepKey(plan[t]));
      p := p + [StepKey(plan[t])];
    }
  }

  lemma DepthOfDependency(index: Index, installed: map<string, string>, root: Request, plan: seq<Step>, src: seq<nat>,
                          s: nat, d: Request, t: nat)
    requires IndexOk(index) && IsPlan(index, installed, root, plan, src) && Linked(root, plan, src)
    requires s < |plan| && t < |plan| && d in Deps(plan[s].dependencies) && KeyOf(d) == StepKey(plan[t])
    ensures Depth(root, plan, src, t) <= Depth(root, plan, src, s) + 1
  {
    var j := DependencyIsMade(root, plan, s, d);
    StepHasKey(index, installed, root, plan, src, t);
    assert src[t] <= j;
    if src[t] != 0 {
      var m := Maker(root, plan, t, src[t]);
      MakersInOrder(root, plan, src[t], j, m, s);
      DepthsInOrder(root, plan, src, m, s);
    }
  }

  /** And over no fewer. */
  lemma {:induction false} DepthIsLeast(index: Index, installed: map<string, string>, root: Request, plan: seq<Step>,
                                        src: seq<nat>, p: seq<string>, t: nat)
    requires IndexOk(index) && IsPlan(index, installed, root, plan, src) && Linked(root, plan, src) && t < |plan|
    requires IsPath(plan, p, KeyOf(root), StepKey(plan[t]))
    ensures Depth(root, plan, src, t) <= |p| - 1
    decreases |p|
  {
    if |p| == 1 {
      StepHasKey(index, installed, root, plan, src, t);
    } else {
      assert Edge(plan, p[|p| - 2], p[|p| - 1]);
      var s: nat, d :| s < |plan| && StepKey(plan[s]) == p[|p| - 2] && d in Deps(plan[s].dependencies)
                       && KeyOf(d) == p[|p| - 1];
      DepthIsLeast(index, installed, root, plan, src, p[..|p| - 1], s);
      DepthOfDependency(index, installed, root, plan, src, s, d, t);
    }
  }

  /** The plan lists exactly the packages reachable from the root, nearest first; the loader is wanted exactly when reachable. */
  lemma PlanIsReachable(index: Index, installed: map<string, string>, root: Request, plan: seq<Step>, src: seq<nat>, key: string)
    requires IndexOk(index) && IsPlan(index, installed, root, plan, src)
    ensures (exists p :: IsPath(plan, p, KeyOf(root), key))
      <==> if key == LOADER then LoaderSeen(Requests(root, plan), |Requests(root, plan)|)
           else exists t :: 0 <= t < |plan| && StepKey(plan[t]) == key
  {
    PlanIsLinked(index, installed, root, plan, src);
    if p :| IsPath(plan, p, KeyOf(root), key) {
      ReachedIsRequested(index, installed, root, plan, src, p, key);
    }
    if key == LOADER && LoaderSeen(Requests(root, plan), |Requests(root, plan)|) {
      var j: nat :| j < |Requests(root, plan)| && KeyOf(Requests(root, plan)[j]) == LOADER;
      var p := RequestIsReached(index, installed, root, plan, src, j);
    }
    if t: nat :| key != LOADER && t < |plan| && StepKey(plan[t]) == key {
      var p := DepthIsReached(index, installed, root, plan, src, t);
    }
  }

  lemma RequestIsReached(index: Index, installed: map<string, string>, root: Request, plan: seq<Step>, src: seq<nat>, j: nat)
    returns (p: seq<string>)
    requires IndexOk(index) && IsPlan(index, installed, root, plan, src) && Linked(root, plan, src)
    requires j < |Requests(root, plan)|
    ensures IsPath(plan, p, KeyOf(root), KeyOf(Requests(root, plan)[j]))
  {
    if j == 0 {
      p := [KeyOf(root)];
    } else {
      var s := Maker(root, plan, |plan|, j);
      p := DepthIsReached(index, installed, root, plan, src, s);
      MadeIsDependency(root, plan, j, s);
      PathSnoc(plan, p, KeyOf(root), StepKey(plan[s]), KeyOf(Requests(root, plan)[j]));
      p := p + [KeyOf(Requests(root, plan)[j])];
    }
  }

  lemma ReachedIsRequested(index: Index, installed: map<string, string>, root: Request, plan: seq<Step>, src: seq<nat>,
                           p: seq<string>, key: string)
    requires IndexOk(index) && IsPlan(index, installed, root, plan, src) && IsPath(plan, p, KeyOf(root), key)
    ensures if key == LOADER then LoaderSeen(Requests(root, plan), |Requests(root, plan)|)
            else exists t :: 0 <= t < |plan| && StepKey(plan[t]) == key
  {
    var j: nat := 0;
    if |p| > 1 {
      assert Edge(plan, p[|p| - 2], p[|p| - 1]);
      var s: nat, d :| s < |plan| && StepKey(plan[s]) == p[|p| - 2] && d in Deps(plan[s].dependencies)
                       && KeyOf(d) == p[|p| - 1];
      j := DependencyIsMade(root, plan, s, d);
    }
    if key != LOADER {
      var t := RequestHasStep(index, installed, root, plan, src, j);
    }
  }

  // ------------------------------------------------------------ the walk decides

  /** There is at most one plan. */
  lemma PlanIsUnique(index: Index, installed: map<string, string>, root: Request, a: seq<Step>, b: seq<Step>)
    requires Plans(index, installed, root, a) && Plans(index, installed, root, b)
    ensures a == b
  {
    var asrc :| IsPlan(index, installed, root, a, asrc);
    var bsrc :| IsPlan(index, installed, root, b, bsrc);
    PartialWithinPlan(index, installed, root, a, asrc, |Requests(root, a)|, b, bsrc);
    PartialWithinPlan(index, installed, root, b, bsrc, |Requests(root, b)|, a, asrc);
    assert a[..|a|] == a;
  }

  lemma ExplainedHasNoStep(index: Index, installed: map<string, string>, r: Request, e: Error)
    requires Explains(index, r, e)
    ensures StepFor(index, installed, r).None? || !AllParse(StepFor(index, installed, r).value.dependencies)
  {
  }

  /** When the walk fails there is no plan at all. */
  lemma StuckMeansNoPlan(index: Index, installed: map<string, string>, root: Request, e: Error, plan: seq<Step>)
    requires Fails(index, installed, root, e)
    ensures !Plans(index, installed, root, plan)
  {
    var a, asrc :| IsStuck(index, installed, root, a, asrc, e);
    if src :| IsPlan(index, installed, root, plan, src) {
      NotBoth(index, installed, root, a, asrc, e, plan, src);
    }
  }

  lemma NotBoth(index: Index, installed: map<string, string>, root: Request, a: seq<Step>, asrc: seq<nat>, e: Error,
                b: seq<Step>, bsrc: seq<nat>)
    requires IsStuck(index, installed, root, a, asrc, e)
    ensures !IsPlan(index, installed, root, b, bsrc)
  {
    var i: nat :| IsPartial(index, installed, root, a, asrc, i) && CannotAnswer(index, Requests(root, a), i, e);
    if IsPlan(index, installed, root, b, bsrc) {
      PartialWithinPlan(index, installed, root, a, asrc, i, b, bsrc);
      assert a[..|a|] == a;
      SharedRequests(index, installed, root, a, b, |a|);
      WantedStays(Requests(root, a), Requests(root, b), i);
      assert HasStep(Requests(root, b), bsrc, i);
      var m: nat :| m < |bsrc| && bsrc[m] == i;
      assert Answers(index, installed, root, b, m, bsrc[m]);
      ExplainedHasNoStep(index, installed, Requests(root, b)[i], e);
    }
  }
}
