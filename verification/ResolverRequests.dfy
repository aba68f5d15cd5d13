/**
 Which step made a request.

 The requests of a plan are the root and then, step by step, the dependencies of each chosen version. So every request
 but the root falls into the stretch of one step, the stretches follow one another in the order of the steps, and the
 requests made by the first steps stay where they are as the plan grows. These are the facts that turn positions in the
 list of requests into edges between packages.
 */
module ResolverRequests {
  import opened DependencyName
  import opened Resolver

  lemma {:induction false} RequestsGrow(root: Request, plan: seq<Step>, m: nat, n: nat)
    requires m <= n <= |plan|
    ensures RequestsTo(root, plan, m) <= RequestsTo(root, plan, n)
  {
    if m < n {
      RequestsGrow(root, plan, m, n - 1);
    }
  }

  /** Request j is one of the dependencies of step s. */
  ghost predicate MadeBy(root: Request, plan: seq<Step>, j: nat, s: nat)
    requires s < |plan|
  {
    |RequestsTo(root, plan, s)| <= j < |RequestsTo(root, plan, s + 1)|
  }

  function Maker(root: Request, plan: seq<Step>, n: nat, j: nat): (s: nat)
    requires n <= |plan| && 1 <= j < |RequestsTo(root, plan, n)|
    ensures s < n && MadeBy(root, plan, j, s)
  {
    if j >= |RequestsTo(root, plan, n - 1)| then n - 1 else Maker(root, plan, n - 1, j)
  }

  lemma MakersInOrder(root: Request, plan: seq<Step>, i: nat, j: nat, s: nat, t: nat)
    requires s < |plan| && t < |plan| && i <= j && MadeBy(root, plan, i, s) && MadeBy(root, plan, j, t)
    ensures s <= t
  {
    if t < s {
      RequestsGrow(root, plan, t + 1, s);
    }
  }

  lemma MadeIsDependency(root: Request, plan: seq<Step>, j: nat, s: nat)
    requires s < |plan| && MadeBy(root, plan, j, s)
    ensures j < |Requests(root, plan)| && Requests(root, plan)[j] in Deps(plan[s].dependencies)
  {
    RequestsGrow(root, plan, s + 1, |plan|);
    var d := Deps(plan[s].dependencies)[j - |RequestsTo(root, plan, s)|];
    assert RequestsTo(root, plan, s + 1)[j] == d;
  }

  lemma DependencyIsMade(root: Request, plan: seq<Step>, s: nat, d: Request) returns (j: nat)
    requires s < |plan| && d in Deps(plan[s].dependencies)
    ensures MadeBy(root, plan, j, s) && j < |Requests(root, plan)| && Requests(root, plan)[j] == d
  {
    var k :| 0 <= k < |Deps(plan[s].dependencies)| && Deps(plan[s].dependencies)[k] == d;
    j := |RequestsTo(root, plan, s)| + k;
    RequestsGrow(root, plan, s + 1, |plan|);
    assert RequestsTo(root, plan, s + 1)[j] == d;
  }
}
