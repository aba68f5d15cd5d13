/**
 The breadth-first dependency planner, internal/mods/resolver.go:74-166.

 The requests of a plan are the root and, step by step, the dependencies of each chosen version. A plan is specified as
 a fixed point: it has one step for each wanted request, the first for its package, in order, and the step is the one
 the index and the installed versions give. The loop holds a partial plan, which has answered the requests seen so far;
 each turn passes a request by, takes it into the plan, or finds that it cannot be answered.
 */
module Resolver {
  import opened DependencyName
  import opened Versions
  import opened Wrappers

  datatype State = Fresh | AlreadyInstalled | Upgrade(from: string)

  datatype Step = Step(owner: string, name: string, version: string, dependencies: seq<string>, state: State)

  datatype Error =
    | PackageNotFound(request: Request)
    | VersionNotFound(request: Request, target: string)
    | BadDependency(request: Request, dep: string)

  datatype Result = Ok(plan: seq<Step>, needsLoader: bool) | Err(error: Error)

  /** The loader pack, installed by the caller and never part of a plan: domain/mod.go:7-8. */
  const LOADER := Key("denikson", "BepInExPack_Valheim")

  function KeyOf(r: Request): string {
    Key(r.owner, r.name)
  }

  function StepKey(s: Step): string {
    Key(s.owner, s.name)
  }

  /** A package is indexed under its own name: thunderstore.go:290-311. */
  ghost predicate IndexOk(index: Index) {
    forall k | k in index :: Key(index[k].owner, index[k].name) == k
  }

  // ------------------------------------------------------------ one request

  function Target(pkg: Package, version: string): string {
    if version != "" then version
    else if pkg.versions == [] then "" else pkg.versions[0].version
  }

  /** The first of the versions that is the target. */
  function Chosen(versions: seq<PackageVersion>, target: string): (c: Option<PackageVersion>)
    ensures c.Some? ==> c.value in versions && c.value.version == target
    ensures c.None? ==> forall v | v in versions :: v.version != target
  {
    if versions == [] then None
    else if versions[0].version == target then Some(versions[0])
    else Chosen(versions[1..], target)
  }

  function StateOf(installed: map<string, string>, key: string, version: string): State {
    if key !in installed then Fresh
    else if Compare(installed[key], version) >= 0 then AlreadyInstalled
    else Upgrade(installed[key])
  }

  function StepFor(index: Index, installed: map<string, string>, r: Request): Option<Step> {
    var key := KeyOf(r);
    if key !in index then None
    else
      var pkg := index[key];
      match Chosen(pkg.versions, Target(pkg, r.version))
      case None => None
      case Some(c) => Some(Step(pkg.owner, pkg.name, c.version, c.dependencies, StateOf(installed, key, c.version)))
  }

  // ------------------------------------------------------------ specification: the requests of a plan, in order

  predicate AllParse(deps: seq<string>) {
    forall d | d in deps :: ParseDependency(d).Some?
  }

  function Deps(deps: seq<string>): seq<Request> {
    if deps == [] then []
    else Deps(deps[..|deps| - 1]) + match ParseDependency(deps[|deps| - 1]) { case None => [] case Some(r) => [r] }
  }

  /** The root, then what each of the first n steps depends on. */
  function RequestsTo(root: Request, plan: seq<Step>, n: nat): (r: seq<Request>)
    requires n <= |plan|
    ensures r != [] && r[0] == root
  {
    if n == 0 then [root] else RequestsTo(root, plan, n - 1) + Deps(plan[n - 1].dependencies)
  }

  function Requests(root: Request, plan: seq<Step>): (r: seq<Request>)
    ensures r != [] && r[0] == root
  {
    RequestsTo(root, plan, |plan|)
  }

  /** The request is the first for its package, which is not the loader. */
  ghost predicate Wanted(reqs: seq<Request>, i: nat)
    requires i < |reqs|
  {
    KeyOf(reqs[i]) != LOADER && forall j: nat | j < i :: KeyOf(reqs[j]) != KeyOf(reqs[i])
  }

  /** Step t answers wanted request i, one made by the root or by a step before t. */
  ghost predicate Answers(index: Index, installed: map<string, string>, root: Request, plan: seq<Step>, t: nat, i: nat)
    requires t < |plan|
  {
    && i < |RequestsTo(root, plan, t)| <= |Requests(root, plan)|
    && Wanted(Requests(root, plan), i)
    && StepFor(index, installed, Requests(root, plan)[i]) == Some(plan[t])
    && AllParse(plan[t].dependencies)
  }

  ghost predicate Increasing(src: seq<nat>, bound: nat) {
    && (forall s, t | 0 <= s < t < |src| :: src[s] < src[t])
    && (forall t | 0 <= t < |src| :: src[t] < bound)
  }

  ghost predicate HasStep(reqs: seq<Request>, src: seq<nat>, i: nat)
    requires i < |reqs|
  {
    Wanted(reqs, i) ==> i in src
  }

  /** The plan answers exactly the wanted ones of the first `seen` requests, in their order; src says which. */
  ghost predicate IsPartial(index: Index, installed: map<string, string>, root: Request, plan: seq<Step>, src: seq<nat>,
                            seen: nat)
  {
    && seen <= |Requests(root, plan)| && |src| == |plan| && Increasing(src, seen)
    && (forall t: nat {:trigger Answers(index, installed, root, plan, t, src[t])} | t < |plan| ::
          Answers(index, installed, root, plan, t, src[t]))
    && (forall i: nat {:trigger HasStep(Requests(root, plan), src, i)} | i < seen :: HasStep(Requests(root, plan), src, i))
  }

  /** The plan answers all its own requests. */
  ghost predicate IsPlan(index: Index, installed: map<string, string>, root: Request, plan: seq<Step>, src: seq<nat>) {
    IsPartial(index, installed, root, plan, src, |Requests(root, plan)|)
  }

  /** Why a wanted request cannot be answered. */
  ghost predicate Explains(index: Index, r: Request, e: Error) {
    && e.request == r
    && match e
       case PackageNotFound(_) => KeyOf(r) !in index
       case VersionNotFound(_, target) =>
         KeyOf(r) in index && target == Target(index[KeyOf(r)], r.version)
         && Chosen(index[KeyOf(r)].versions, target).None?
       case BadDependency(_, dep) =>
         && KeyOf(r) in index
         && var c := Chosen(index[KeyOf(r)].versions, Target(index[KeyOf(r)], r.version));
            c.Some? && dep in c.value.dependencies && ParseDependency(dep).None?
  }

  /** A partial plan whose next request is wanted but cannot be answered. */
  ghost predicate IsStuck(index: Index, installed: map<string, string>, root: Request, plan: seq<Step>, src: seq<nat>, e: Error)
  {
    exists seen: nat :: IsPartial(index, installed, root, plan, src, seen) && CannotAnswer(index, Requests(root, plan), seen, e)
  }

  ghost predicate CannotAnswer(index: Index, reqs: seq<Request>, i: nat, e: Error) {
    i < |reqs| && Wanted(reqs, i) && Explains(index, reqs[i], e)
  }

  // ------------------------------------------------------------ one step of the walk

  lemma {:induction false} RequestsStay(root: Request, plan: seq<Step>, more: seq<Step>, n: nat)
    requires n <= |plan| <= |more| && forall k | 0 <= k < n :: more[k] == plan[k]
    ensures RequestsTo(root, more, n) == RequestsTo(root, plan, n)
  {
    if n > 0 {
      RequestsStay(root, plan, more, n - 1);
    }
  }

  lemma RequestsSnoc(root: Request, plan: seq<Step>, step: Step)
    ensures Requests(root, plan + [step]) == Requests(root, plan) + Deps(step.dependencies)
  {
    RequestsStay(root, plan, plan + [step], |plan|);
  }

  lemma Skip(index: Index, installed: map<string, string>, root: Request, plan: seq<Step>, src: seq<nat>, i: nat)
    requires IsPartial(index, installed, root, plan, src, i) && i < |Requests(root, plan)|
    requires !Wanted(Requests(root, plan), i)
    ensures IsPartial(index, installed, root, plan, src, i + 1)
  {
    assert HasStep(Requests(root, plan), src, i);
  }

  lemma WantedStays(reqs: seq<Request>, more: seq<Request>, i: nat)
    requires i < |reqs| && reqs <= more
    ensures Wanted(more, i) <==> Wanted(reqs, i)
  {
    assert forall j: nat | j < |reqs| :: more[j] == reqs[j];
  }

  lemma AnswerStays(index: Index, installed: map<string, string>, root: Request, plan: seq<Step>, step: Step, t: nat, i: nat)
    requires t < |plan| && Answers(index, installed, root, plan, t, i)
    ensures Answers(index, installed, root, plan + [step], t, i)
  {
    RequestsSnoc(root, plan, step);
    RequestsStay(root, plan, plan + [step], t);
    WantedStays(Requests(root, plan), Requests(root, plan + [step]), i);
  }

  lemma NewAnswer(index: Index, installed: map<string, string>, root: Request, plan: seq<Step>, step: Step, i: nat)
    requires i < |Requests(root, plan)| && Wanted(Requests(root, plan), i)
    requires StepFor(index, installed, Requests(root, plan)[i]) == Some(step) && AllParse(step.dependencies)
    ensures Answers(index, installed, root, plan + [step], |plan|, i)
  {
    RequestsSnoc(root, plan, step);
    RequestsStay(root, plan, plan + [step], |plan|);
    WantedStays(Requests(root, plan), Requests(root, plan + [step]), i);
  }

  lemma Take(index: Index, installed: map<string, string>, root: Request, plan: seq<Step>, src: seq<nat>, i: nat, step: Step)
    requires IsPartial(index, installed, root, plan, src, i) && i < |Requests(root, plan)|
    requires Wanted(Requests(root, plan), i) && StepFor(index, installed, Requests(root, plan)[i]) == Some(step)
    requires AllParse(step.dependencies)
    ensures IsPartial(index, installed, root, plan + [step], src + [i], i + 1)
  {
    var longer, from := plan + [step], src + [i];
    RequestsSnoc(root, plan, step);
    forall t: nat {:trigger Answers(index, installed, root, longer, t, from[t])} | t < |longer|
      ensures Answers(index, installed, root, longer, t, from[t])
    {
      if t < |plan| {
        assert Answers(index, installed, root, plan, t, src[t]);
        AnswerStays(index, installed, root, plan, step, t, src[t]);
      } else {
        NewAnswer(index, installed, root, plan, step, i);
      }
    }
    forall k: nat | k < i + 1 ensures HasStep(Requests(root, longer), from, k) {
      WantedStays(Requests(root, plan), Requests(root, longer), k);
      if k < i {
        assert HasStep(Requests(root, plan), src, k);
        assert k in src ==> k in from;
      } else {
        assert from[|src|] == i;
      }
    }
  }

  // ------------------------------------------------------------ the code

  // resolver.go:157-163
  method QueueDeps(deps: seq<string>) returns (queued: seq<Request>, bad: Option<string>)
    ensures bad.None? ==> AllParse(deps) && queued == Deps(deps)
    ensures bad.Some? ==> bad.value in deps && ParseDependency(bad.value).None?
  {
    queued := [];
    for i := 0 to |deps|
      invariant AllParse(deps[..i]) && queued == Deps(deps[..i])
    {
      assert deps[..i + 1][..i] == deps[..i] && deps[..i + 1] == deps[..i] + [deps[i]];
      var r := ParseDependency(deps[i]);
      if r.None? {
        return queued, Some(deps[i]);
      }
      queued := queued + [r.value];
    }
    assert deps[..|deps|] == deps;
    bad := None;
  }

  // resolver.go:118-154
  method MakeStep(index: Index, installed: map<string, string>, cur: Request) returns (step: Option<Step>, error: Option<Error>)
    ensures step == StepFor(index, installed, cur)
    ensures step.None? ==> error.Some? && Explains(index, cur, error.value)
  {
    var key := KeyOf(cur);
    if key !in index {
      return None, Some(PackageNotFound(cur));
    }
    var pkg := index[key];
    var target := cur.version;
    if target == "" {
      target := if pkg.versions == [] then "" else pkg.versions[0].version;
    }
    var chosen := Chosen(pkg.versions, target);
    if chosen.None? {
      return None, Some(VersionNotFound(cur, target));
    }
    var c := chosen.value;
    var s := Step(pkg.owner, pkg.name, c.version, c.dependencies, Fresh);
    if key in installed {
      var order := CompareVersions(installed[key], c.version);
      s := s.(state := if order >= 0 then AlreadyInstalled else Upgrade(installed[key]));
    }
    return Some(s), None;
  }

  // resolver.go:118-163
  method AnswerRequest(index: Index, installed: map<string, string>, cur: Request)
    returns (answer: Option<(Step, seq<Request>)>, error: Option<Error>)
    ensures answer.Some? ==> StepFor(index, installed, cur) == Some(answer.value.0)
    ensures answer.Some? ==> AllParse(answer.value.0.dependencies) && answer.value.1 == Deps(answer.value.0.dependencies)
    ensures answer.None? ==> error.Some? && Explains(index, cur, error.value)
  {
    var step, e := MakeStep(index, installed, cur);
    if step.None? {
      return None, e;
    }
    var queued, bad := QueueDeps(step.value.dependencies);
    if bad.Some? {
      return None, Some(BadDependency(cur, bad.value));
    }
    return Some((step.value, queued)), None;
  }

  ghost predicate IsVisited(reqs: seq<Request>, seen: nat, visited: set<string>)
    requires seen <= |reqs|
  {
    forall k :: k in visited <==> k != LOADER && exists j :: 0 <= j < seen && KeyOf(reqs[j]) == k
  }

  ghost predicate LoaderSeen(reqs: seq<Request>, seen: nat)
    requires seen <= |reqs|
  {
    exists j :: 0 <= j < seen && KeyOf(reqs[j]) == LOADER
  }

  /** The variables of the walk, with `seen` requests taken off the queue. */
  datatype Walk = Walk(plan: seq<Step>, queue: seq<Request>, visited: set<string>, needsLoader: bool)

  ghost predicate Walking(index: Index, installed: map<string, string>, root: Request, w: Walk, src: seq<nat>, seen: nat) {
    && IsPartial(index, installed, root, w.plan, src, seen)
    && w.queue == Requests(root, w.plan)[seen..]
    && IsVisited(Requests(root, w.plan), seen, w.visited) && w.visited <= index.Keys
    && (w.needsLoader <==> LoaderSeen(Requests(root, w.plan), seen))
  }

  /** resolver.go:109-115: the loader and packages already visited are passed by. */
  function Passed(w: Walk): Walk
    requires w.queue != []
  {
    w.(queue := w.queue[1..], needsLoader := w.needsLoader || KeyOf(w.queue[0]) == LOADER)
  }

  /** resolver.go:116, 155 and 162: the package is visited, its step planned, its dependencies queued. */
  function Taken(w: Walk, step: Step): Walk
    requires w.queue != []
  {
    Walk(w.plan + [step], w.queue[1..] + Deps(step.dependencies), w.visited + {KeyOf(w.queue[0])}, w.needsLoader)
  }

  lemma WalkStarts(index: Index, installed: map<string, string>, root: Request)
    ensures Walking(index, installed, root, Walk([], [root], {}, false), [], 0)
  {
  }

  lemma Front(index: Index, installed: map<string, string>, root: Request, w: Walk, src: seq<nat>, seen: nat)
    requires Walking(index, installed, root, w, src, seen) && w.queue != []
    ensures seen < |Requests(root, w.plan)| && w.queue[0] == Requests(root, w.plan)[seen]
    ensures w.queue[1..] == Requests(root, w.plan)[seen + 1..]
    ensures Wanted(Requests(root, w.plan), seen) <==> KeyOf(w.queue[0]) != LOADER && KeyOf(w.queue[0]) !in w.visited
  {
  }

  lemma WalkPasses(index: Index, installed: map<string, string>, root: Request, w: Walk, src: seq<nat>, seen: nat)
    requires Walking(index, installed, root, w, src, seen) && w.queue != []
    requires KeyOf(w.queue[0]) == LOADER || KeyOf(w.queue[0]) in w.visited
    ensures Walking(index, installed, root, Passed(w), src, seen + 1)
  {
    Front(index, installed, root, w, src, seen);
    Skip(index, installed, root, w.plan, src, seen);
    PassBy(Requests(root, w.plan), seen, w.visited);
  }

  lemma WalkTakes(index: Index, installed: map<string, string>, root: Request, w: Walk, src: seq<nat>, seen: nat, step: Step)
    requires Walking(index, installed, root, w, src, seen) && w.queue != []
    requires KeyOf(w.queue[0]) != LOADER && KeyOf(w.queue[0]) !in w.visited
    requires StepFor(index, installed, w.queue[0]) == Some(step) && AllParse(step.dependencies)
    ensures Walking(index, installed, root, Taken(w, step), src + [seen], seen + 1)
  {
    Front(index, installed, root, w, src, seen);
    Take(index, installed, root, w.plan, src, seen, step);
    TakenRequests(index, root, w, seen, step);
  }

  lemma TakenRequests(index: Index, root: Request, w: Walk, seen: nat, step: Step)
    requires seen < |Requests(root, w.plan)| && w.queue == Requests(root, w.plan)[seen..]
    requires IsVisited(Requests(root, w.plan), seen, w.visited) && w.visited <= index.Keys
    requires w.needsLoader <==> LoaderSeen(Requests(root, w.plan), seen)
    requires KeyOf(w.queue[0]) != LOADER && KeyOf(w.queue[0]) in index
    ensures var t := Taken(w, step);
      var reqs := Requests(root, t.plan);
      && seen + 1 <= |reqs| && t.queue == reqs[seen + 1..] && IsVisited(reqs, seen + 1, t.visited)
      && t.visited <= index.Keys && (t.needsLoader <==> LoaderSeen(reqs, seen + 1))
  {
    var reqs, deps := Requests(root, w.plan), Deps(step.dependencies);
    RequestsSnoc(root, w.plan, step);
    Visit(reqs, deps, seen, w.visited);
    assert reqs[seen..][1..] + deps == (reqs + deps)[seen + 1..];
  }

  ghost predicate Plans(index: Index, installed: map<string, string>, root: Request, plan: seq<Step>) {
    exists src :: IsPlan(index, installed, root, plan, src)
  }

  ghost predicate Fails(index: Index, installed: map<string, string>, root: Request, e: Error) {
    exists made, src :: IsStuck(index, installed, root, made, src, e)
  }

  // resolver.go:96-166
  method ResolvePlan(index: Index, installed: map<string, string>, root: Request) returns (r: Result)
    ensures r.Ok? ==> Plans(index, installed, root, r.plan)
    ensures r.Ok? ==> (r.needsLoader <==> LoaderSeen(Requests(root, r.plan), |Requests(root, r.plan)|))
    ensures r.Err? ==> Fails(index, installed, root, r.error)
  {
    var w := Walk([], [root], {}, false);
    ghost var seen := 0;
    ghost var src: seq<nat> := [];
    WalkStarts(index, installed, root);
    while |w.queue| > 0
      invariant Walking(index, installed, root, w, src, seen)
      decreases |index.Keys - w.visited|, |w.queue|
    {
      var error;
      w, error, src := TakeNext(index, installed, root, w, src, seen);
      if error.Some? {
        return Err(error.value);
      }
      seen := seen + 1;
    }
    WalkEnds(index, installed, root, w, src, seen);
    r := Ok(w.plan, w.needsLoader);
  }

  // resolver.go:105-163
  method TakeNext(index: Index, installed: map<string, string>, root: Request, w: Walk, ghost src: seq<nat>, ghost seen: nat)
    returns (next: Walk, error: Option<Error>, ghost made: seq<nat>)
    requires Walking(index, installed, root, w, src, seen) && w.queue != []
    ensures error.Some? ==> Fails(index, installed, root, error.value)
    ensures error.None? ==> Walking(index, installed, root, next, made, seen + 1)
    ensures error.None? ==>
      || |index.Keys - next.visited| < |index.Keys - w.visited|
      || (next.visited == w.visited && |next.queue| < |w.queue|)
  {
    next, error, made := w, None, src;
    var cur := w.queue[0];
    var key := KeyOf(cur);
    if key == LOADER {
      WalkPasses(index, installed, root, w, src, seen);
      next := w.(queue := w.queue[1..], needsLoader := true);
    } else if key in w.visited {
      WalkPasses(index, installed, root, w, src, seen);
      next := w.(queue := w.queue[1..]);
    } else {
      var step, why := AnswerRequest(index, installed, cur);
      if step.None? {
        WalkFails(index, installed, root, w, src, seen, why.value);
        return w, why, src;
      }
      WalkTakes(index, installed, root, w, src, seen, step.value.0);
      Shrinks(index.Keys, w.visited, key);
      next := Walk(w.plan + [step.value.0], w.queue[1..] + step.value.1, w.visited + {key}, w.needsLoader);
      made := src + [seen];
    }
  }

  lemma WalkFails(index: Index, installed: map<string, string>, root: Request, w: Walk, src: seq<nat>, seen: nat, e: Error)
    requires Walking(index, installed, root, w, src, seen) && w.queue != []
    requires KeyOf(w.queue[0]) != LOADER && KeyOf(w.queue[0]) !in w.visited && Explains(index, w.queue[0], e)
    ensures Fails(index, installed, root, e)
  {
    Front(index, installed, root, w, src, seen);
    assert CannotAnswer(index, Requests(root, w.plan), seen, e);
    assert IsStuck(index, installed, root, w.plan, src, e);
  }

  lemma WalkEnds(index: Index, installed: map<string, string>, root: Request, w: Walk, src: seq<nat>, seen: nat)
    requires Walking(index, installed, root, w, src, seen) && w.queue == []
    ensures Plans(index, installed, root, w.plan)
    ensures w.needsLoader <==> LoaderSeen(Requests(root, w.plan), |Requests(root, w.plan)|)
  {
    assert IsPlan(index, installed, root, w.plan, src);
  }

  lemma Shrinks(all: set<string>, visited: set<string>, key: string)
    requires key in all && key !in visited
    ensures |all - (visited + {key})| < |all - visited|
  {
    assert all - visited == (all - (visited + {key})) + {key};
  }

  lemma PassBy(reqs: seq<Request>, i: nat, visited: set<string>)
    requires i < |reqs| && IsVisited(reqs, i, visited) && (KeyOf(reqs[i]) == LOADER || KeyOf(reqs[i]) in visited)
    ensures IsVisited(reqs, i + 1, visited)
    ensures LoaderSeen(reqs, i + 1) <==> LoaderSeen(reqs, i) || KeyOf(reqs[i]) == LOADER
  {
  }

  lemma Visit(reqs: seq<Request>, queued: seq<Request>, i: nat, visited: set<string>)
    requires i < |reqs| && IsVisited(reqs, i, visited) && KeyOf(reqs[i]) != LOADER
    ensures IsVisited(reqs + queued, i + 1, visited + {KeyOf(reqs[i])})
    ensures LoaderSeen(reqs + queued, i + 1) <==> LoaderSeen(reqs, i)
  {
    VisitShared(reqs, reqs + queued, i, visited);
  }

  lemma VisitShared(reqs: seq<Request>, more: seq<Request>, i: nat, visited: set<string>)
    requires i < |reqs| <= |more| && (forall j | 0 <= j < |reqs| :: more[j] == reqs[j])
    requires IsVisited(reqs, i, visited) && KeyOf(reqs[i]) != LOADER
    ensures IsVisited(more, i + 1, visited + {KeyOf(reqs[i])})
    ensures LoaderSeen(more, i + 1) <==> LoaderSeen(reqs, i)
  {
  }
}
