/**
 Dependency strings "Owner-Name-Version", internal/mods/resolver.go:13-28.

 The owner ends at the first dash and the version begins after the last one, so a name may have dashes of its own. The
 strings accepted are exactly the printed forms of owners without a dash, names without a newline and versions that
 begin with a digit; each is read back as what was printed.
 */
module DependencyName {
  import opened Ascii
  import opened Versions
  import opened Wrappers

  datatype Request = Request(owner: string, name: string, version: string)

  /** \w of a Go regular expression */
  predicate IsWord(c: char) {
    'a' <= c <= 'z' || 'A' <= c <= 'Z' || IsDigit(c) || c == '_'
  }

  /** \d[\w.]* */
  predicate IsVersion(v: string) {
    v != "" && IsDigit(v[0]) && forall k | 0 <= k < |v| :: IsWord(v[k]) || v[k] == '.'
  }

  function FirstDash(s: string, i: nat): (j: nat)
    requires i <= |s|
    ensures i <= j <= |s|
    decreases |s| - i
  {
    if i < |s| && s[i] != '-' then FirstDash(s, i + 1) else i
  }

  /** One past the last dash before hi, or 0. */
  function AfterLastDash(s: string, hi: nat): (j: nat)
    requires hi <= |s|
    ensures j <= hi
  {
    if hi == 0 || s[hi - 1] == '-' then hi else AfterLastDash(s, hi - 1)
  }

  /** A name that ends at i and a version that begins at j. */
  function CutAt(dep: string, i: nat, j: nat): Option<Request>
    requires i <= |dep| && j <= |dep|
  {
    if i == 0 || i + 2 >= j then None
    else
      var owner, name, version := dep[..i], dep[i + 1..j - 1], dep[j..];
      if '\n' in name || !IsVersion(version) then None else Some(Request(owner, name, version))
  }

  /** depPattern: the owner ends at the first dash, the version begins after the last. */
  function ParseDependency(dep: string): Option<Request> {
    CutAt(dep, FirstDash(dep, 0), AfterLastDash(dep, |dep|))
  }

  function PrintDependency(r: Request): string {
    r.owner + "-" + r.name + "-" + r.version
  }

  /** What a dependency string can name: owners without a dash, and versions, which have none either. */
  predicate IsName(r: Request) {
    r.owner != "" && '-' !in r.owner && r.name != "" && '\n' !in r.name && IsVersion(r.version)
  }

  lemma {:induction false} FirstDashIs(s: string, k: nat, i: nat)
    requires k <= i < |s| && s[i] == '-' && forall m | k <= m < i :: s[m] != '-'
    ensures FirstDash(s, k) == i
    decreases i - k
  {
    if k < i {
      FirstDashIs(s, k + 1, i);
    }
  }

  lemma {:induction false} FirstDashFinds(s: string, i: nat)
    requires i <= |s|
    ensures var j := FirstDash(s, i); (forall m | i <= m < j :: s[m] != '-') && (j < |s| ==> s[j] == '-')
    decreases |s| - i
  {
    if i < |s| && s[i] != '-' {
      FirstDashFinds(s, i + 1);
    }
  }

  lemma {:induction false} LastDashFinds(s: string, hi: nat)
    requires hi <= |s|
    ensures var j := AfterLastDash(s, hi); (forall m | j <= m < hi :: s[m] != '-') && (j > 0 ==> s[j - 1] == '-')
  {
    if hi > 0 && s[hi - 1] != '-' {
      LastDashFinds(s, hi - 1);
    }
  }

  lemma {:induction false} AfterLastDashIs(s: string, j: nat, hi: nat)
    requires 0 < j <= hi <= |s| && s[j - 1] == '-' && forall m | j <= m < hi :: s[m] != '-'
    ensures AfterLastDash(s, hi) == j
  {
    if j < hi {
      AfterLastDashIs(s, j, hi - 1);
    }
  }

  lemma PrintParts(r: Request)
    ensures var s, i := PrintDependency(r), |r.owner|;
      var j := i + 1 + |r.name| + 1;
      && i < j <= |s| && s[..i] == r.owner && s[i] == '-' && s[i + 1..j - 1] == r.name && s[j - 1] == '-' && s[j..] == r.version
  {
  }

  lemma OwnerEnds(r: Request)
    requires '-' !in r.owner
    ensures FirstDash(PrintDependency(r), 0) == |r.owner|
  {
    var s := PrintDependency(r);
    assert s == r.owner + ("-" + r.name + "-" + r.version);
    assert forall m | 0 <= m < |r.owner| :: s[m] == r.owner[m];
    FirstDashIs(s, 0, |r.owner|);
  }

  lemma VersionBegins(r: Request)
    requires '-' !in r.version
    ensures AfterLastDash(PrintDependency(r), |PrintDependency(r)|) == |r.owner| + 1 + |r.name| + 1
  {
    var s := PrintDependency(r);
    var j := |r.owner| + 1 + |r.name| + 1;
    assert forall m | j <= m < |s| :: s[m] == r.version[m - j];
    AfterLastDashIs(s, j, |s|);
  }

  lemma ParseInvertsPrint(r: Request)
    requires IsName(r)
    ensures ParseDependency(PrintDependency(r)) == Some(r)
  {
    VersionHasNoDash(r.version);
    OwnerEnds(r);
    VersionBegins(r);
    PrintParts(r);
    assert CutAt(PrintDependency(r), |r.owner|, |r.owner| + 1 + |r.name| + 1) == Some(r);
  }

  lemma VersionHasNoDash(v: string)
    requires IsVersion(v)
    ensures '-' !in v
  {
  }

  lemma PrintInvertsParse(dep: string)
    requires ParseDependency(dep).Some?
    ensures IsName(ParseDependency(dep).value) && PrintDependency(ParseDependency(dep).value) == dep
  {
    var i := FirstDash(dep, 0);
    var j := AfterLastDash(dep, |dep|);
    FirstDashFinds(dep, 0);
    LastDashFinds(dep, |dep|);
    assert dep == dep[..i] + "-" + dep[i + 1..j - 1] + "-" + dep[j..];
  }

  /** The strings accepted are the printed names, each read back as what was printed. */
  lemma ParsesExactlyPrinted(dep: string, r: Request)
    ensures ParseDependency(dep) == Some(r) <==> IsName(r) && dep == PrintDependency(r)
  {
    if ParseDependency(dep) == Some(r) {
      PrintInvertsParse(dep);
    }
    if IsName(r) && dep == PrintDependency(r) {
      ParseInvertsPrint(r);
    }
  }
}
