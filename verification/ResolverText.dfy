/** What a plan is, told by the strings of the index: internal/mods/resolver.go:13-28 and 96-166. */
module ResolverText {
  import opened Ascii
  import opened DependencyName
  import opened Resolver
  import opened ResolverLaws
  import opened ResolverRequests
  import opened Versions
  import opened Wrappers

  // ------------------------------------------------------------ names

  /** Packages are told apart by owner and name in lower case, and the loader is one of them. */
  lemma KeysAre(r: Request)
    ensures KeyOf(r) == ToLower(r.owner + "-" + r.name)
    ensures LOADER == ToLower("denikson-BepInExPack_Valheim")
  {
    assert "denikson" + "-" + "BepInExPack_Valheim" == "denikson-BepInExPack_Valheim";
  }

  /** The characters of a version. */
  predicate VersionChar(c: char) {
    'a' <= c <= 'z' || 'A' <= c <= 'Z' || '0' <= c <= '9' || c == '_' || c == '.'
  }

  /** A dependency string names r. */
  predicate Names(dep: string, r: Request) {
    && dep == r.owner + "-" + r.name + "-" + r.version
    && r.owner != "" && '-' !in r.owner && r.name != "" && '\n' !in r.name
    && r.version != "" && '0' <= r.version[0] <= '9' && forall c | c in r.version :: VersionChar(c)
  }

  lemma VersionsAre(v: string)
    ensures IsVersion(v) <==> v != "" && '0' <= v[0] <= '9' && forall c | c in v :: VersionChar(c)
  {
    assert forall k | 0 <= k < |v| :: v[k] in v;
  }

  /** A string is read as the request it names, and there is one at most. */
  lemma ReadAsNamed(dep: string, r: Request)
    ensures ParseDependency(dep) == Some(r) <==> Names(dep, r)
  {
    ParsesExactlyPrinted(dep, r);
    VersionsAre(r.version);
  }

  lemma {:induction false} DepsAreNamed(deps: seq<string>, r: Request)
    ensures r in Deps(deps) <==> exists dep :: dep in deps && Names(dep, r)
  {
    if deps != [] {
      var front, last := deps[..|deps| - 1], deps[|deps| - 1];
      assert deps == front + [last];
      DepsAreNamed(front, r);
      ReadAsNamed(last, r);
      LastDep(front, last, r);
    }
  }

  lemma LastDep(front: seq<string>, last: string, r: Request)
    ensures r in Deps(front + [last]) <==> r in Deps(front) || ParseDependency(last) == Some(r)
  {
    assert (front + [last])[..|front|] == front;
  }

  // ------------------------------------------------------------ the steps of a plan

  /** The dependency of step s is a package: the loader or one that is planned. */
  lemma DependenciesArePlanned(index: Index, installed: map<string, string>, root: Request, plan: seq<Step>, src: seq<nat>,
                               s: nat, dep: string) returns (d: Request)
    requires IndexOk(index) && IsPlan(index, installed, root, plan, src) && s < |plan| && dep in plan[s].dependencies
    ensures Names(dep, d)
    ensures ToLower(d.owner + "-" + d.name) == ToLower("denikson-BepInExPack_Valheim")
      || exists t :: 0 <= t < |plan| && ToLower(plan[t].owner + "-" + plan[t].name) == ToLower(d.owner + "-" + d.name)
  {
    assert Answers(index, installed, root, plan, s, src[s]);
    d := ParseDependency(dep).value;
    ReadAsNamed(dep, d);
    DepsAreNamed(plan[s].dependencies, d);
    KeysAre(d);
    PlanIsClosed(index, installed, root, plan, src, s, d);
    if t :| 0 <= t < |plan| && StepKey(plan[t]) == KeyOf(d) {
      assert ToLower(plan[t].owner + "-" + plan[t].name) == ToLower(d.owner + "-" + d.name);
    }
  }

  /** The step takes the version asked for, or the first listed if none is, as the package lists it first. */
  ghost predicate Takes(index: Index, r: Request, s: Step) {
    var key := ToLower(r.owner + "-" + r.name);
    && key in index && s.owner == index[key].owner && s.name == index[key].name
    && s.version == (if r.version == "" then LatestOf(index[key]) else r.version)
    && exists v: nat :: FirstListed(index[key].versions, v, s)
  }

  function LatestOf(pkg: Package): string {
    if pkg.versions == [] then "" else pkg.versions[0].version
  }

  ghost predicate FirstListed(versions: seq<PackageVersion>, v: nat, s: Step) {
    && v < |versions| && versions[v].version == s.version && versions[v].dependencies == s.dependencies
    && forall u | 0 <= u < v :: versions[u].version != s.version
  }

  lemma {:induction false} ChosenIsFirst(versions: seq<PackageVersion>, target: string) returns (v: nat)
    requires Chosen(versions, target).Some?
    ensures v < |versions| && versions[v] == Chosen(versions, target).value && versions[v].version == target
    ensures forall u | 0 <= u < v :: versions[u].version != target
  {
    v := 0;
    if versions[0].version != target {
      var w := ChosenIsFirst(versions[1..], target);
      v := w + 1;
    }
  }

  /** Each step is the root's, or some earlier step depends on it by that name and version. */
  lemma StepsAreAskedFor(index: Index, installed: map<string, string>, root: Request, plan: seq<Step>, src: seq<nat>, t: nat)
    returns (r: Request)
    requires IndexOk(index) && IsPlan(index, installed, root, plan, src) && t < |plan|
    ensures Takes(index, r, plan[t])
    ensures r == root || exists s, dep :: 0 <= s < t && dep in plan[s].dependencies && Names(dep, r)
  {
    StepHasKey(index, installed, root, plan, src, t);
    assert Answers(index, installed, root, plan, t, src[t]);
    r := Requests(root, plan)[src[t]];
    StepTakes(index, installed, r, plan[t]);
    if src[t] > 0 {
      RequestsGrow(root, plan, t, |plan|);
      var s := Maker(root, plan, t, src[t]);
      MadeIsDependency(root, plan, src[t], s);
      DepsAreNamed(plan[s].dependencies, r);
    }
  }

  lemma StepTakes(index: Index, installed: map<string, string>, r: Request, s: Step)
    requires StepFor(index, installed, r) == Some(s)
    ensures Takes(index, r, s)
  {
    KeysAre(r);
    var pkg := index[KeyOf(r)];
    var v := ChosenIsFirst(pkg.versions, Target(pkg, r.version));
    assert FirstListed(pkg.versions, v, s);
  }

  /** Of several requests for one package the first decides: no other step of the plan is for it. */
  lemma OneStepEach(index: Index, installed: map<string, string>, root: Request, plan: seq<Step>, src: seq<nat>, s: nat, t: nat)
    requires IndexOk(index) && IsPlan(index, installed, root, plan, src) && s < t < |plan|
    ensures ToLower(plan[s].owner + "-" + plan[s].name) != ToLower(plan[t].owner + "-" + plan[t].name)
    ensures ToLower(plan[t].owner + "-" + plan[t].name) != ToLower("denikson-BepInExPack_Valheim")
  {
    NoRepeats(index, installed, root, plan, src);
    KeysAre(root);
  }

  predicate IsLoader(r: Request) {
    ToLower(r.owner + "-" + r.name) == ToLower("denikson-BepInExPack_Valheim")
  }

  ghost predicate AsksForLoader(plan: seq<Step>, s: nat, dep: string, d: Request) {
    s < |plan| && dep in plan[s].dependencies && Names(dep, d) && IsLoader(d)
  }

  /** The loader is needed exactly when it is the root or a dependency of a step. */
  lemma LoaderIsNeeded(root: Request, plan: seq<Step>)
    ensures LoaderSeen(Requests(root, plan), |Requests(root, plan)|)
      <==> IsLoader(root) || exists s: nat, dep, d :: AsksForLoader(plan, s, dep, d)
  {
    var reqs := Requests(root, plan);
    KeysAre(root);
    if j: nat :| j < |reqs| && KeyOf(reqs[j]) == LOADER && j > 0 {
      LoaderHasAsker(root, plan, j);
    }
    if s: nat, dep, d :| AsksForLoader(plan, s, dep, d) {
      AskerIsSeen(root, plan, s, dep, d);
    }
  }

  lemma LoaderHasAsker(root: Request, plan: seq<Step>, j: nat)
    requires 0 < j < |Requests(root, plan)| && KeyOf(Requests(root, plan)[j]) == LOADER
    ensures exists s: nat, dep, d :: AsksForLoader(plan, s, dep, d)
  {
    var d := Requests(root, plan)[j];
    var s := Maker(root, plan, |plan|, j);
    MadeIsDependency(root, plan, j, s);
    DepsAreNamed(plan[s].dependencies, d);
    KeysAre(d);
    var dep :| dep in plan[s].dependencies && Names(dep, d);
    assert AsksForLoader(plan, s, dep, d);
  }

  lemma AskerIsSeen(root: Request, plan: seq<Step>, s: nat, dep: string, d: Request)
    requires AsksForLoader(plan, s, dep, d)
    ensures LoaderSeen(Requests(root, plan), |Requests(root, plan)|)
  {
    DepsAreNamed(plan[s].dependencies, d);
    KeysAre(d);
    var j := DependencyIsMade(root, plan, s, d);
  }

  // ------------------------------------------------------------ failures

  /** What is wrong with the request that stops the walk. */
  ghost predicate IsTrue(index: Index, e: Error) {
    var key := ToLower(e.request.owner + "-" + e.request.name);
    match e
    case PackageNotFound(_) => key !in index
    case VersionNotFound(r, target) =>
      && key in index && target == (if r.version == "" then LatestOf(index[key]) else r.version)
      && forall v | v in index[key].versions :: v.version != target
    case BadDependency(r, dep) =>
      && key in index && (forall d :: !Names(dep, d))
      && exists v :: v in index[key].versions && dep in v.dependencies
                     && v.version == (if r.version == "" then LatestOf(index[key]) else r.version)
  }

  /** A failure is true of a request that the root or a dependency makes. */
  lemma FailuresAreTrue(index: Index, installed: map<string, string>, root: Request, e: Error)
    requires Fails(index, installed, root, e)
    ensures IsTrue(index, e)
    ensures ToLower(e.request.owner + "-" + e.request.name) != ToLower("denikson-BepInExPack_Valheim")
  {
    var made, src :| IsStuck(index, installed, root, made, src, e);
    var i: nat :| IsPartial(index, installed, root, made, src, i) && CannotAnswer(index, Requests(root, made), i, e);
    KeysAre(e.request);
    if e.BadDependency? {
      forall d ensures !Names(e.dep, d) {
        ReadAsNamed(e.dep, d);
      }
    }
  }
}
