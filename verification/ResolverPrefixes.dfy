/**
 Partial plans are beginnings of one another.

 A partial plan has answered the wanted ones among its first requests. Which request is wanted next depends only on the
 requests made so far, and how it is answered only on the index and what is installed; so of two partial plans the one
 that saw fewer requests is a beginning of the other. A plan is the partial plan that has seen all of its requests: it
 contains every partial plan, whether the walk that made it went on to the end or got stuck.
 */
module ResolverPrefixes {
  import opened DependencyName
  import opened Resolver
  import opened ResolverRequests
  import opened Versions

  /** Of two partial plans the one that saw less is a beginning of the other. */
  lemma {:induction false} PartialsAgree(index: Index, installed: map<string, string>, root: Request,
                                         a: seq<Step>, asrc: seq<nat>, i: nat, b: seq<Step>, bsrc: seq<nat>, j: nat, n: nat)
    requires IsPartial(index, installed, root, a, asrc, i) && IsPartial(index, installed, root, b, bsrc, j)
    requires i <= j && n <= |a|
    ensures n <= |b| && a[..n] == b[..n] && asrc[..n] == bsrc[..n]
  {
    if n > 0 {
      PartialsAgree(index, installed, root, a, asrc, i, b, bsrc, j, n - 1);
      NextAgrees(index, installed, root, a, asrc, i, b, bsrc, j, n - 1);
      assert a[..n] == a[..n - 1] + [a[n - 1]] && b[..n] == b[..n - 1] + [b[n - 1]];
    }
  }

  lemma SharedRequests(index: Index, installed: map<string, string>, root: Request, a: seq<Step>, b: seq<Step>, n: nat)
    requires n <= |a| && n <= |b| && a[..n] == b[..n]
    ensures RequestsTo(root, a, n) == RequestsTo(root, b, n)
    ensures RequestsTo(root, a, n) <= Requests(root, a) && RequestsTo(root, b, n) <= Requests(root, b)
  {
    var both := a[..n];
    RequestsStay(root, both, a, n);
    assert forall k | 0 <= k < n :: b[k] == both[k];
    RequestsStay(root, both, b, n);
    RequestsGrow(root, a, n, |a|);
    RequestsGrow(root, b, n, |b|);
  }

  /** The next wanted request after n steps is the same in both. */
  lemma NextAgrees(index: Index, installed: map<string, string>, root: Request,
                   a: seq<Step>, asrc: seq<nat>, i: nat, b: seq<Step>, bsrc: seq<nat>, j: nat, n: nat)
    requires IsPartial(index, installed, root, a, asrc, i) && IsPartial(index, installed, root, b, bsrc, j)
    requires i <= j && n < |a| && n <= |b| && a[..n] == b[..n] && asrc[..n] == bsrc[..n]
    ensures n < |b| && a[n] == b[n] && asrc[n] == bsrc[n]
  {
    SharedRequests(index, installed, root, a, b, n);
    var ra, rb, both := Requests(root, a), Requests(root, b), RequestsTo(root, a, n);
    var k := asrc[n];
    assert Answers(index, installed, root, a, n, k);
    WantedStays(both, ra, k);
    WantedStays(both, rb, k);
    assert HasStep(rb, bsrc, k);
    NotBefore(asrc, n, i);
    NthIs(bsrc, n, k, j);
    var l := bsrc[n];
    assert Answers(index, installed, root, b, n, l);
    WantedStays(both, rb, l);
    WantedStays(both, ra, l);
    assert HasStep(ra, asrc, l);
    NotBefore(bsrc, n, j);
    NthIs(asrc, n, l, i);
  }

  lemma NotBefore(src: seq<nat>, n: nat, bound: nat)
    requires Increasing(src, bound) && n < |src|
    ensures src[n] !in src[..n]
  {
  }

  /** A member that is not among the first n shows there is an n-th, not beyond it. */
  lemma NthIs(src: seq<nat>, n: nat, k: nat, bound: nat)
    requires Increasing(src, bound) && n <= |src| && k in src && k !in src[..n]
    ensures n < |src| && src[n] <= k
  {
    forall o | 0 <= o < n ensures src[o] != k {
      assert src[..n][o] == src[o];
    }
    var m :| 0 <= m < |src| && src[m] == k;
  }

  lemma WantedIsAnswered(index: Index, installed: map<string, string>, root: Request, plan: seq<Step>, src: seq<nat>, k: nat)
    requires IsPlan(index, installed, root, plan, src) && k < |Requests(root, plan)| && Wanted(Requests(root, plan), k)
    ensures k in src
  {
    assert HasStep(Requests(root, plan), src, k);
  }

  lemma NoStepBeyond(index: Index, installed: map<string, string>, root: Request, a: seq<Step>, asrc: seq<nat>, i: nat,
                     b: seq<Step>, bsrc: seq<nat>)
    requires IsPartial(index, installed, root, a, asrc, i) && IsPlan(index, installed, root, b, bsrc)
    requires |b| <= |a| && b == a[..|b|] && bsrc == asrc[..|b|]
    ensures a == b && asrc == bsrc
  {
    var n := |b|;
    assert b[..n] == b;
    SharedRequests(index, installed, root, a, b, n);
    if n < |a| {
      assert Answers(index, installed, root, a, n, asrc[n]);
      WantedStays(Requests(root, b), Requests(root, a), asrc[n]);
      NotBefore(asrc, n, i);
      WantedIsAnswered(index, installed, root, b, bsrc, asrc[n]);
    }
    assert a[..|a|] == a && asrc[..|asrc|] == asrc;
  }

  /** Whatever the walk has made so far is the beginning of the plan, if there is one. */
  lemma PartialWithinPlan(index: Index, installed: map<string, string>, root: Request, a: seq<Step>, asrc: seq<nat>, i: nat,
                          b: seq<Step>, bsrc: seq<nat>)
    requires IsPartial(index, installed, root, a, asrc, i) && IsPlan(index, installed, root, b, bsrc)
    ensures |a| <= |b| && a == b[..|a|] && asrc == bsrc[..|a|]
  {
    if i <= |Requests(root, b)| {
      PartialsAgree(index, installed, root, a, asrc, i, b, bsrc, |Requests(root, b)|, |a|);
      assert a[..|a|] == a && asrc[..|a|] == asrc;
    } else {
      PartialsAgree(index, installed, root, b, bsrc, |Requests(root, b)|, a, asrc, i, |b|);
      assert b[..|b|] == b && bsrc[..|b|] == bsrc;
      NoStepBeyond(index, installed, root, a, asrc, i, b, bsrc);
    }
  }
}
