/** The version order of internal/mods/resolver.go:30-72 and what internal/mods/registries.go builds on it. */
module Versions {
  import opened Ascii
  import opened Decimal
  import opened Wrappers

  // ------------------------------------------------------------ numeric parts

  /** The number a part starts with; 0 if there is none or strconv.Atoi overflows. */
  function NumericPrefix(s: string): nat {
    var n := Value(s[..DigitsEnd(s, 0)], 0);
    if n <= MAX_INT then n else 0
  }

  /** The i-th dotted part as a number; parts beyond the last are 0. */
  function Part(v: string, i: nat): nat {
    var parts := SplitOn(v, '.');
    if i < |parts| then NumericPrefix(parts[i]) else 0
  }

  // ------------------------------------------------------------ the order, independently of the loop

  ghost predicate AgreeBelow(a: string, b: string, n: nat) {
    forall i: nat | i < n :: Part(a, i) == Part(b, i)
  }

  /** a is older: at the first part where they differ it has the smaller number. */
  ghost predicate Older(a: string, b: string) {
    exists n: nat :: AgreeBelow(a, b, n) && Part(a, n) < Part(b, n)
  }

  ghost predicate Same(a: string, b: string) {
    forall i: nat :: Part(a, i) == Part(b, i)
  }

  function Larger(m: nat, n: nat): nat {
    if m > n then m else n
  }

  function CompareFrom(a: string, b: string, i: nat): int
    decreases Larger(|SplitOn(a, '.')|, |SplitOn(b, '.')|) - i
  {
    if i >= Larger(|SplitOn(a, '.')|, |SplitOn(b, '.')|) then 0
    else if Part(a, i) < Part(b, i) then -1
    else if Part(a, i) > Part(b, i) then 1
    else CompareFrom(a, b, i + 1)
  }

  /** The value compareVersions returns. */
  function Compare(a: string, b: string): int {
    CompareFrom(a, b, 0)
  }

  lemma {:induction false} CompareFromMeans(a: string, b: string, i: nat)
    requires AgreeBelow(a, b, i)
    ensures CompareFrom(a, b, i) == 0 ==> Same(a, b)
    ensures CompareFrom(a, b, i) < 0 ==> Older(a, b)
    ensures CompareFrom(a, b, i) > 0 ==> Older(b, a)
    decreases Larger(|SplitOn(a, '.')|, |SplitOn(b, '.')|) - i
  {
    if i < Larger(|SplitOn(a, '.')|, |SplitOn(b, '.')|) {
      if Part(a, i) == Part(b, i) {
        CompareFromMeans(a, b, i + 1);
      } else {
        assert AgreeBelow(b, a, i);
      }
    }
  }

  lemma Exclusive(a: string, b: string)
    ensures !(Older(a, b) && Older(b, a)) && !(Same(a, b) && Older(a, b)) && !(Same(a, b) && Older(b, a))
  {
  }

  /** The sign of the comparison is the order. */
  lemma CompareMeans(a: string, b: string)
    ensures Compare(a, b) < 0 <==> Older(a, b)
    ensures Compare(a, b) > 0 <==> Older(b, a)
    ensures Compare(a, b) == 0 <==> Same(a, b)
  {
    CompareFromMeans(a, b, 0);
    Exclusive(a, b);
  }

  /** A total preorder. */
  lemma OlderTransitive(a: string, b: string, c: string)
    ensures Compare(a, b) == -Compare(b, a)
    ensures Compare(a, b) <= 0 && Compare(b, c) <= 0 ==> Compare(a, c) <= 0
    ensures (Compare(a, b) < 0 && Compare(b, c) <= 0) || (Compare(a, b) <= 0 && Compare(b, c) < 0) ==> Compare(a, c) < 0
  {
    CompareMeans(a, b);
    CompareMeans(b, a);
    CompareMeans(b, c);
    CompareMeans(a, c);
    Signs(a, b, 0);
    Signs(b, a, 0);
    if Older(a, b) && Older(b, c) {
      var m: nat :| AgreeBelow(a, b, m) && Part(a, m) < Part(b, m);
      var n: nat :| AgreeBelow(b, c, n) && Part(b, n) < Part(c, n);
      var k := if m < n then m else n;
      assert AgreeBelow(a, c, k) && Part(a, k) < Part(c, k);
    } else if Older(a, b) && Same(b, c) {
      var m: nat :| AgreeBelow(a, b, m) && Part(a, m) < Part(b, m);
      assert AgreeBelow(a, c, m) && Part(a, m) < Part(c, m);
    } else if Same(a, b) && Older(b, c) {
      var n: nat :| AgreeBelow(b, c, n) && Part(b, n) < Part(c, n);
      assert AgreeBelow(a, c, n) && Part(a, n) < Part(c, n);
    }
  }

  lemma {:induction false} Signs(a: string, b: string, i: nat)
    ensures -1 <= CompareFrom(a, b, i) <= 1
    decreases Larger(|SplitOn(a, '.')|, |SplitOn(b, '.')|) - i
  {
    if i < Larger(|SplitOn(a, '.')|, |SplitOn(b, '.')|) {
      Signs(a, b, i + 1);
    }
  }

  /** Trailing parts without a number, such as ".0", do not matter. */
  lemma PaddingIsSame(v: string, suffix: string)
    requires '.' !in suffix && NumericPrefix(suffix) == 0
    ensures Same(v, v + "." + suffix) && Compare(v, v + "." + suffix) == 0
  {
    SplitAppend(v, suffix, '.');
    CompareMeans(v, v + "." + suffix);
  }

  // ------------------------------------------------------------ the code

  // resolver.go:59-72
  method NumericPrefixOf(s: string) returns (n: nat)
    ensures n == NumericPrefix(s)
  {
    var end := 0;
    while end < |s| && IsDigit(s[end])
      invariant end <= |s| && DigitsEnd(s, end) == DigitsEnd(s, 0)
      invariant forall k | 0 <= k < end :: IsDigit(s[k])
    {
      end := end + 1;
    }
    if end == 0 {
      return 0;
    }
    n := Value(s[..end], 0);
    if n > MAX_INT {
      return 0;
    }
  }

  // resolver.go:34-57
  method CompareVersions(a: string, b: string) returns (c: int)
    ensures c == Compare(a, b)
    ensures c < 0 <==> Older(a, b)
    ensures c > 0 <==> Older(b, a)
    ensures c == 0 <==> Same(a, b)
  {
    CompareMeans(a, b);
    var pa, pb := SplitOn(a, '.'), SplitOn(b, '.');
    var n := |pa|;
    if |pb| > n {
      n := |pb|;
    }
    for i := 0 to n
      invariant CompareFrom(a, b, i) == Compare(a, b)
    {
      var va, vb := 0, 0;
      if i < |pa| {
        va := NumericPrefixOf(pa[i]);
      }
      if i < |pb| {
        vb := NumericPrefixOf(pb[i]);
      }
      if va != vb {
        return if va < vb then -1 else 1;
      }
    }
    c := 0;
  }

  // ------------------------------------------------------------ registries

  datatype PackageVersion = PackageVersion(version: string, dependencies: seq<string>)

  datatype Package = Package(owner: string, name: string, versions: seq<PackageVersion>)

  /** A registry's index by lower-case full name. */
  type Index = map<string, Package>

  function Key(owner: string, name: string): string {
    ToLower(owner + "-" + name)
  }

  /** thunderstore.go:559-565 */
  function LatestVersion(index: Index, owner: string, name: string): Option<string> {
    var k := Key(owner, name);
    if k !in index || index[k].versions == [] then None else Some(index[k].versions[0].version)
  }

  predicate Lists(index: Index, key: string, version: string) {
    key in index && exists i :: 0 <= i < |index[key].versions| && index[key].versions[i].version == version
  }

  /** The latest version a registry offers, if any, compares to v as at most bound. */
  ghost predicate NotAbove(index: Index, owner: string, name: string, v: string, bound: int) {
    var latest := LatestVersion(index, owner, name);
    latest.Some? ==> Compare(latest.value, v) <= bound
  }

  /** v is the newest any of the first n registries offers, and the registry at has it before any other. */
  ghost predicate IsBest(order: seq<Index>, n: nat, owner: string, name: string, v: string, at: nat)
    requires n <= |order|
  {
    && at < n && LatestVersion(order[at], owner, name) == Some(v)
    && (forall i | 0 <= i < n :: NotAbove(order[i], owner, name, v, 0))
    && (forall i | 0 <= i < at :: NotAbove(order[i], owner, name, v, -1))
  }

  ghost predicate NoneOffers(order: seq<Index>, n: nat, owner: string, name: string)
    requires n <= |order|
  {
    forall i | 0 <= i < n :: LatestVersion(order[i], owner, name).None?
  }

  /** What is best among the first n registries, if anything. */
  ghost predicate BestSoFar(order: seq<Index>, n: nat, owner: string, name: string, best: Option<(string, nat)>)
    requires n <= |order|
  {
    if best.None? then NoneOffers(order, n, owner, name) else IsBest(order, n, owner, name, best.value.0, best.value.1)
  }

  // registries.go:71-82
  method LatestAcross(order: seq<Index>, owner: string, name: string) returns (best: Option<(string, nat)>)
    ensures best.None? <==> forall i | 0 <= i < |order| :: !Offers(order[i], ToLower(owner + "-" + name))
    ensures best.Some? ==> IsNewest(order, ToLower(owner + "-" + name), best.value.0, best.value.1)
  {
    best := None;
    for i := 0 to |order|
      invariant BestSoFar(order, i, owner, name, best)
    {
      var v := LatestVersion(order[i], owner, name);
      if v.None? {
        continue;
      }
      if best.None? {
        FirstIsBest(order, i, owner, name);
        best := Some((v.value, i));
      } else {
        var c := CompareVersions(v.value, best.value.0);
        if c > 0 {
          NewerIsBest(order, i, owner, name, best.value.0, best.value.1);
          best := Some((v.value, i));
        }
      }
    }
    BestIsNewest(order, owner, name, best);
  }

  /** The registry lists versions of the package. */
  predicate Offers(index: Index, key: string) {
    key in index && index[key].versions != []
  }

  /** v is listed first by the registry at; no first listed version is newer, and before at each is older. */
  ghost predicate IsNewest(order: seq<Index>, key: string, v: string, at: nat) {
    && at < |order| && Offers(order[at], key) && order[at][key].versions[0].version == v
    && (forall i | 0 <= i < |order| && Offers(order[i], key) :: !Older(v, order[i][key].versions[0].version))
    && (forall i | 0 <= i < at && Offers(order[i], key) :: Older(order[i][key].versions[0].version, v))
  }

  lemma BestIsNewest(order: seq<Index>, owner: string, name: string, best: Option<(string, nat)>)
    requires BestSoFar(order, |order|, owner, name, best)
    ensures best.None? <==> forall i | 0 <= i < |order| :: !Offers(order[i], ToLower(owner + "-" + name))
    ensures best.Some? ==> IsNewest(order, ToLower(owner + "-" + name), best.value.0, best.value.1)
  {
    var key := Key(owner, name);
    forall i | 0 <= i < |order| ensures LatestVersion(order[i], owner, name).Some? <==> Offers(order[i], key) {
    }
    if best.Some? {
      var (v, at) := best.value;
      forall i | 0 <= i < |order| && Offers(order[i], key)
        ensures !Older(v, order[i][key].versions[0].version)
        ensures i < at ==> Older(order[i][key].versions[0].version, v)
      {
        assert NotAbove(order[i], owner, name, v, 0);
        assert i < at ==> NotAbove(order[i], owner, name, v, -1);
        CompareMeans(order[i][key].versions[0].version, v);
      }
    }
  }

  lemma FirstIsBest(order: seq<Index>, n: nat, owner: string, name: string)
    requires n < |order| && LatestVersion(order[n], owner, name).Some? && NoneOffers(order, n, owner, name)
    ensures IsBest(order, n + 1, owner, name, LatestVersion(order[n], owner, name).value, n)
  {
    var v := LatestVersion(order[n], owner, name).value;
    OlderTransitive(v, v, v);
  }

  /** What is not newer than the old best is older than a newer one. */
  lemma NewerIsBest(order: seq<Index>, n: nat, owner: string, name: string, best: string, at: nat)
    requires n < |order| && IsBest(order, n, owner, name, best, at)
    requires LatestVersion(order[n], owner, name).Some? && Compare(LatestVersion(order[n], owner, name).value, best) > 0
    ensures IsBest(order, n + 1, owner, name, LatestVersion(order[n], owner, name).value, n)
  {
    var v := LatestVersion(order[n], owner, name).value;
    OlderTransitive(v, v, v);
    OlderTransitive(v, best, v);
    forall j | 0 <= j < n ensures NotAbove(order[j], owner, name, v, -1) {
      var latest := LatestVersion(order[j], owner, name);
      if latest.Some? {
        OlderTransitive(latest.value, best, v);
        Signs(latest.value, v, 0);
      }
    }
  }

  // registries.go:86-93
  method FindVersion(order: seq<Index>, owner: string, name: string, version: string) returns (found: Option<nat>)
    ensures found.None? <==> forall i | 0 <= i < |order| :: !Lists(order[i], ToLower(owner + "-" + name), version)
    ensures found.Some? ==> found.value < |order| && Lists(order[found.value], ToLower(owner + "-" + name), version)
    ensures found.Some? ==> forall i | 0 <= i < found.value :: !Lists(order[i], ToLower(owner + "-" + name), version)
  {
    for i := 0 to |order|
      invariant forall j | 0 <= j < i :: !Lists(order[j], Key(owner, name), version)
    {
      if Lists(order[i], Key(owner, name), version) {
        return Some(i);
      }
    }
    found := None;
  }
}
