/**
 The field-level diff of internal/api/auditdiff.go, before masking, with a patch function as
 its inverse.
 */
module AuditDiff {
  import opened Ascii

  datatype Json =
    | Null                                  // also: absent
    | Bool(b: bool)
    | Number(value: real)
    | Text(text: string)
    | Array(items: seq<Json>)
    | Object(members: map<string, Json>)

  type Path = seq<string>

  datatype Change = Change(path: string, from: Json, to: Json)

  // ------------------------------------------------------------ specification

  function Members(j: Json): map<string, Json> {
    if j.Object? then j.members else map[]
  }

  /** Indexing a Go map: a missing key yields nil. */
  function Member(j: Json, key: string): Json {
    if key in Members(j) then Members(j)[key] else Null
  }

  function Get(j: Json, p: Path): Json
    decreases |p|
  {
    if p == [] then j else Get(Member(j, p[0]), p[1..])
  }

  predicate ObjectOrNull(j: Json) {
    j.Object? || j.Null?
  }

  predicate Descends(before: Json, after: Json) {
    (before.Object? || after.Object?) && ObjectOrNull(before) && ObjectOrNull(after)
  }

  /** The paths the diff reports. */
  predicate Reported(before: Json, after: Json, p: Path)
    decreases |p|
  {
    if Descends(before, after) then p != [] && Reported(Member(before, p[0]), Member(after, p[0]), p[1..])
    else p == [] && before != after
  }

  function JoinPath(base: string, key: string): string {
    if base == "" then key else base + "." + key
  }

  function Dotted(base: string, p: Path): string
    decreases |p|
  {
    if p == [] then base else Dotted(JoinPath(base, p[0]), p[1..])
  }

  /** Equality modulo null or absent members and empty objects, as equality of normal forms. */
  function Prune(j: Json): Json
    decreases j
  {
    if j.Object? then
      var m := map k | k in j.members && Prune(j.members[k]) != Null :: Prune(j.members[k]);
      if m.Keys == {} then Null else Object(m)
    else j
  }

  // ------------------------------------------------------------ the code

  ghost function Depth(j: Json): nat
    decreases j, 1, 0
  {
    if j.Object? then 1 + DepthOver(j, j.members.Keys) else 0
  }

  ghost function DepthOver(j: Json, keys: set<string>): (d: nat)
    requires j.Object? && keys <= j.members.Keys
    ensures forall k | k in keys :: Depth(j.members[k]) <= d
    decreases j, 0, |keys|
  {
    if keys == {} then 0
    else
      var k :| k in keys;
      var d, e := Depth(j.members[k]), DepthOver(j, keys - {k});
      assert forall x | x in keys :: x == k || x in keys - {k};
      if d < e then e else d
  }

  lemma MemberShallower(j: Json, key: string)
    ensures Depth(Member(j, key)) <= Depth(j)
    ensures j.Object? ==> Depth(Member(j, key)) < Depth(j)
  {
  }

  lemma BothShallower(before: Json, after: Json, key: string)
    requires Descends(before, after)
    ensures Depth(Member(before, key)) + Depth(Member(after, key)) < Depth(before) + Depth(after)
  {
    MemberShallower(before, key);
    MemberShallower(after, key);
  }

  /** A change reported for path `p` below `base`. */
  predicate ChangeAt(base: string, before: Json, after: Json, p: Path, c: Change) {
    Reported(before, after, p) && c == Change(Dotted(base, p), Get(before, p), Get(after, p))
  }

  /** `out` holds one change for each of `paths`, which are distinct. */
  ghost predicate Pairs(base: string, before: Json, after: Json, paths: seq<Path>, out: seq<Change>) {
    && |paths| == |out|
    && (forall i | 0 <= i < |out| :: ChangeAt(base, before, after, paths[i], out[i]))
    && (forall i, j | 0 <= i < j < |paths| :: paths[i] != paths[j])
  }

  ghost predicate Lists(base: string, before: Json, after: Json, paths: seq<Path>, out: seq<Change>) {
    && Pairs(base, before, after, paths, out)
    && (forall p | Reported(before, after, p) :: p in paths)
  }

  /** The loop of WalkDiff with `keys` still to visit. */
  ghost predicate Walked(base: string, before: Json, after: Json, keys: set<string>, paths: seq<Path>, out: seq<Change>) {
    && Pairs(base, before, after, paths, out)
    && (forall i | 0 <= i < |paths| :: paths[i] != [] && paths[i][0] !in keys)
    && (forall p | Reported(before, after, p) && p != [] && p[0] !in keys
                   && p[0] in Members(before).Keys + Members(after).Keys :: p in paths)
  }

  /** The changes are those of some list of the reported paths, each path once. */
  ghost predicate IsDiff(base: string, before: Json, after: Json, out: seq<Change>) {
    exists paths :: Lists(base, before, after, paths, out)
  }

  // auditdiff.go:48-76
  method WalkDiff(base: string, before: Json, after: Json) returns (out: seq<Change>)
    ensures IsDiff(base, before, after, out)
    decreases Depth(before) + Depth(after), 1
  {
    if (before.Object? || after.Object?) && (before.Object? || before.Null?) && (after.Object? || after.Null?) {
      out := WalkMembers(base, before, after);
    } else if before != after {
      out := [Change(base, before, after)];
      ghost var root: seq<Path> := [[]];
      assert [] in root;
      assert Lists(base, before, after, root, out);
    } else {
      out := [];
      assert Lists(base, before, after, [], out);
    }
  }

  // auditdiff.go:55-69; keys are visited in an arbitrary order, as when ranging over a map.
  method WalkMembers(base: string, before: Json, after: Json) returns (out: seq<Change>)
    requires Descends(before, after)
    ensures IsDiff(base, before, after, out)
    decreases Depth(before) + Depth(after), 0
  {
    out := [];
    ghost var paths: seq<Path> := [];
    var keys := Members(before).Keys + Members(after).Keys;
    while keys != {}
      invariant Walked(base, before, after, keys, paths, out)
      decreases |keys|
    {
      var k :| k in keys;
      BothShallower(before, after, k);
      var more := WalkDiff(JoinPath(base, k), Member(before, k), Member(after, k));
      ghost var below :| Lists(JoinPath(base, k), Member(before, k), Member(after, k), below, more);
      WalkStep(base, before, after, keys, k, paths, out, below, more);
      out, paths := out + more, paths + Under(k, below);
      keys := keys - {k};
    }
    NothingOutside(before, after);
    assert Lists(base, before, after, paths, out);
  }

  ghost function Under(k: string, paths: seq<Path>): seq<Path> {
    seq(|paths|, i requires 0 <= i < |paths| => [k] + paths[i])
  }

  lemma BelowKey(base: string, before: Json, after: Json, k: string, below: seq<Path>, more: seq<Change>)
    requires Descends(before, after)
    requires Pairs(JoinPath(base, k), Member(before, k), Member(after, k), below, more)
    ensures Pairs(base, before, after, Under(k, below), more)
    ensures forall i | 0 <= i < |below| :: Under(k, below)[i] != [] && Under(k, below)[i][0] == k
  {
    var here := Under(k, below);
    forall i | 0 <= i < |more| ensures ChangeAt(base, before, after, here[i], more[i]) {
      assert ChangeAt(JoinPath(base, k), Member(before, k), Member(after, k), below[i], more[i]);
      assert here[i][1..] == below[i];
    }
    forall i, j | 0 <= i < j < |here| ensures here[i] != here[j] {
      assert here[i][1..] == below[i] && here[j][1..] == below[j];
    }
  }

  lemma AllBelowKey(before: Json, after: Json, k: string, below: seq<Path>)
    requires Descends(before, after)
    requires forall p | Reported(Member(before, k), Member(after, k), p) :: p in below
    ensures forall p | Reported(before, after, p) && p[0] == k :: p in Under(k, below)
  {
    forall p | Reported(before, after, p) && p[0] == k ensures p in Under(k, below) {
      assert p[1..] in below;
      var i: nat :| i < |below| && below[i] == p[1..];
      assert Under(k, below)[i] == p;
    }
  }

  lemma PairsAppend(base: string, before: Json, after: Json, paths: seq<Path>, out: seq<Change>, here: seq<Path>,
                    more: seq<Change>)
    requires Pairs(base, before, after, paths, out) && Pairs(base, before, after, here, more)
    requires forall i, j | 0 <= i < |paths| && 0 <= j < |here| :: paths[i] != here[j]
    ensures Pairs(base, before, after, paths + here, out + more)
  {
    var all, changes := paths + here, out + more;
    forall i | 0 <= i < |changes| ensures ChangeAt(base, before, after, all[i], changes[i]) {
      if i >= |out| {
        assert ChangeAt(base, before, after, here[i - |out|], more[i - |out|]);
      }
    }
  }

  lemma WalkStep(base: string, before: Json, after: Json, keys: set<string>, k: string,
                 paths: seq<Path>, out: seq<Change>, below: seq<Path>, more: seq<Change>)
    requires Descends(before, after) && k in keys && Walked(base, before, after, keys, paths, out)
    requires Lists(JoinPath(base, k), Member(before, k), Member(after, k), below, more)
    ensures Walked(base, before, after, keys - {k}, paths + Under(k, below), out + more)
  {
    BelowKey(base, before, after, k, below, more);
    AllBelowKey(before, after, k, below);
    var here := Under(k, below);
    forall i, j | 0 <= i < |paths| && 0 <= j < |here| ensures paths[i] != here[j] {
      assert paths[i][0] != k && here[j][0] == k;
    }
    PairsAppend(base, before, after, paths, out, here, more);
    var all := paths + here;
    forall i | 0 <= i < |all| ensures all[i] != [] && all[i][0] !in keys - {k} {
      if i >= |paths| {
        assert here[i - |paths|][0] == k;
      }
    }
  }

  /** A key absent on both sides has nothing to report. */
  lemma NothingOutside(before: Json, after: Json)
    requires Descends(before, after)
    ensures forall p | Reported(before, after, p) :: p[0] in Members(before).Keys + Members(after).Keys
  {
    forall p | Reported(before, after, p)
      ensures p[0] in Members(before).Keys + Members(after).Keys
    {
      NothingToReport(Null, p[1..]);
    }
  }

  // ------------------------------------------------------------ the diff is empty exactly for equal values

  lemma {:induction false} PruneMember(j: Json, key: string)
    requires ObjectOrNull(j)
    ensures ObjectOrNull(Prune(j)) && Member(Prune(j), key) == Prune(Member(j, key))
  {
  }

  /** A pruned value holds no null member and is not an empty object. */
  predicate Pruned(j: Json) {
    j.Object? ==> j.members.Keys != {} && forall k | k in j.members :: j.members[k] != Null
  }

  lemma SameMembers(x: Json, y: Json)
    requires ObjectOrNull(x) && ObjectOrNull(y) && Pruned(x) && Pruned(y)
    requires forall k :: Member(x, k) == Member(y, k)
    ensures x == y
  {
    forall k ensures k in Members(x) <==> k in Members(y) {
      assert Member(x, k) == Member(y, k);
    }
    forall k | k in Members(x) ensures Members(x)[k] == Members(y)[k] {
      assert Member(x, k) == Member(y, k);
    }
    assert Members(x) == Members(y);
  }

  lemma PrunedEqual(x: Json, y: Json)
    requires ObjectOrNull(x) && ObjectOrNull(y) && Prune(x) != Prune(y)
    ensures exists k :: Prune(Member(x, k)) != Prune(Member(y, k))
  {
    var px, py := Prune(x), Prune(y);
    if forall k :: Prune(Member(x, k)) == Prune(Member(y, k)) {
      forall k ensures Member(px, k) == Member(py, k) {
        PruneMember(x, k);
        PruneMember(y, k);
      }
      SameMembers(px, py);
    }
  }

  lemma {:induction false} ReportedDiffers(before: Json, after: Json, p: Path)
    requires Reported(before, after, p)
    ensures Prune(before) != Prune(after)
    decreases |p|
  {
    if Descends(before, after) {
      ReportedDiffers(Member(before, p[0]), Member(after, p[0]), p[1..]);
      PruneMember(before, p[0]);
      PruneMember(after, p[0]);
    }
  }

  lemma {:induction false} DifferentReported(before: Json, after: Json) returns (p: Path)
    requires Prune(before) != Prune(after)
    ensures Reported(before, after, p)
    decreases Depth(before) + Depth(after)
  {
    if Descends(before, after) {
      PrunedEqual(before, after);
      var k :| Prune(Member(before, k)) != Prune(Member(after, k));
      BothShallower(before, after, k);
      var q := DifferentReported(Member(before, k), Member(after, k));
      p := [k] + q;
    } else {
      p := [];
    }
  }

  lemma EmptyExactlyWhenEqual(base: string, before: Json, after: Json, out: seq<Change>)
    requires IsDiff(base, before, after, out)
    ensures out == [] <==> Prune(before) == Prune(after)
  {
    var paths :| Lists(base, before, after, paths, out);
    if Prune(before) != Prune(after) {
      var p := DifferentReported(before, after);
      assert p in paths;
    }
    if out != [] {
      assert ChangeAt(base, before, after, paths[0], out[0]);
      ReportedDiffers(before, after, paths[0]);
    }
  }

  /** No reported path lies below another. */
  lemma {:induction false} NoNestedPaths(before: Json, after: Json, p: Path, q: Path)
    requires Reported(before, after, p) && Reported(before, after, q) && p <= q
    ensures p == q
    decreases |p|
  {
    if p != [] {
      assert p[1..] <= q[1..];
      NoNestedPaths(Member(before, p[0]), Member(after, p[0]), p[1..], q[1..]);
    }
  }

  // ------------------------------------------------------------ patching

  /** Setting a value at a path, making objects on the way. */
  function SetAt(j: Json, p: Path, v: Json): Json
    decreases |p|
  {
    if p == [] then v else Object(Members(j)[p[0] := SetAt(Member(j, p[0]), p[1..], v)])
  }

  lemma {:induction false} NothingToReport(j: Json, p: Path)
    ensures !Reported(j, j, p)
    decreases |p|
  {
    if p != [] {
      NothingToReport(Member(j, p[0]), p[1..]);
    }
  }

  /** Writing the new value at one reported path settles that path and no other. */
  lemma {:induction false} SetAtSettles(j: Json, after: Json, p: Path, q: Path)
    requires Reported(j, after, p)
    ensures Reported(SetAt(j, p, Get(after, p)), after, q) <==> Reported(j, after, q) && q != p
    decreases |p|
  {
    if p == [] {
      NothingToReport(after, q);
    } else if q != [] {
      if q[0] == p[0] {
        SetAtSettles(Member(j, p[0]), Member(after, p[0]), p[1..], q[1..]);
        assert q == p <==> q[1..] == p[1..] by {
          assert q == [q[0]] + q[1..] && p == [p[0]] + p[1..];
        }
      }
    }
  }

  /** Cutting a dotted path into keys; the empty path stands for the root. */
  function SplitPath(path: string): Path {
    if path == "" then [] else SplitOn(path, '.')
  }

  function Patched(j: Json, changes: seq<Change>): Json {
    if changes == [] then j
    else
      var c := changes[|changes| - 1];
      SetAt(Patched(j, changes[..|changes| - 1]), SplitPath(c.path), c.to)
  }

  /** Keys that dotted paths can carry: no dots, and no empty key at the top. */
  ghost predicate DotFree(p: Path) {
    forall k | k in p :: '.' !in k
  }

  ghost predicate Addressable(before: Json, after: Json) {
    forall p | Reported(before, after, p) :: DotFree(p) && (p != [] ==> p[0] != "")
  }

  lemma SegmentsJoin(base: string, key: string)
    requires base != "" && '.' !in key
    ensures JoinPath(base, key) != "" && SplitOn(JoinPath(base, key), '.') == SplitOn(base, '.') + [key]
  {
    SplitAppend(base, key, '.');
  }

  lemma DotFreeTail(p: Path)
    requires DotFree(p) && p != []
    ensures '.' !in p[0] && DotFree(p[1..])
  {
    assert p[0] in p;
    assert forall k | k in p[1..] :: k in p;
  }

  lemma HeadMoves(segments: seq<string>, p: Path)
    requires p != []
    ensures segments + [p[0]] + p[1..] == segments + p
  {
  }

  lemma {:induction false} SegmentsDotted(base: string, segments: seq<string>, p: Path)
    requires base != "" && SplitOn(base, '.') == segments && DotFree(p)
    ensures Dotted(base, p) != "" && SplitOn(Dotted(base, p), '.') == segments + p
    decreases |p|
  {
    if p == [] {
      assert segments + p == segments;
    } else {
      DotFreeTail(p);
      SegmentsJoin(base, p[0]);
      SegmentsDotted(JoinPath(base, p[0]), segments + [p[0]], p[1..]);
      HeadMoves(segments, p);
    }
  }

  /** The dotted form loses nothing of an addressable path. */
  lemma SplitInvertsDotted(p: Path)
    requires DotFree(p) && (p != [] ==> p[0] != "")
    ensures SplitPath(Dotted("", p)) == p
  {
    if p != [] {
      assert p[0] in p;
      NothingToSplit(p[0], '.');
      DotFreeTail(p);
      SegmentsDotted(p[0], [p[0]], p[1..]);
    }
  }

  /** After n changes exactly the other paths are still to be settled. */
  ghost predicate Settled(before: Json, after: Json, paths: seq<Path>, out: seq<Change>, n: nat)
    requires n <= |out| && n <= |paths|
  {
    forall q :: Reported(Patched(before, out[..n]), after, q) <==> Reported(before, after, q) && q !in paths[..n]
  }

  lemma {:induction false} PatchingSettles(before: Json, after: Json, paths: seq<Path>, out: seq<Change>, n: nat)
    requires Lists("", before, after, paths, out) && Addressable(before, after) && n <= |out|
    ensures Settled(before, after, paths, out, n)
  {
    if n > 0 {
      PatchingSettles(before, after, paths, out, n - 1);
      assert ChangeAt("", before, after, paths[n - 1], out[n - 1]);
      SplitInvertsDotted(paths[n - 1]);
      OneMoreSettled(before, after, paths, out, n);
    }
  }

  lemma OneMoreSettled(before: Json, after: Json, paths: seq<Path>, out: seq<Change>, n: nat)
    requires 0 < n <= |out| == |paths| && Settled(before, after, paths, out, n - 1)
    requires Reported(before, after, paths[n - 1]) && paths[n - 1] !in paths[..n - 1]
    requires SplitPath(out[n - 1].path) == paths[n - 1] && out[n - 1].to == Get(after, paths[n - 1])
    ensures Settled(before, after, paths, out, n)
  {
    var j, p := Patched(before, out[..n - 1]), paths[n - 1];
    assert out[..n][..n - 1] == out[..n - 1] && paths[..n] == paths[..n - 1] + [p];
    forall q ensures Reported(Patched(before, out[..n]), after, q) <==> Reported(before, after, q) && q !in paths[..n] {
      SetAtSettles(j, after, p, q);
    }
  }

  /** Applying the reported changes to the old value gives the new one, modulo null members and empty objects. */
  lemma PatchRestores(before: Json, after: Json, out: seq<Change>)
    requires IsDiff("", before, after, out) && Addressable(before, after)
    ensures Prune(Patched(before, out)) == Prune(after)
  {
    var paths :| Lists("", before, after, paths, out);
    PatchingSettles(before, after, paths, out, |out|);
    assert Settled(before, after, paths, out, |out|);
    assert out[..|out|] == out && paths[..|out|] == paths;
    if Prune(Patched(before, out)) != Prune(after) {
      var p := DifferentReported(Patched(before, out), after);
    }
  }

  predicate PlainKeys(j: Json)
    decreases j
  {
    j.Object? ==> forall k | k in j.members :: k != "" && '.' !in k && PlainKeys(j.members[k])
  }

  /** A check a caller can make: every key is non-empty and free of dots. */
  lemma {:induction false} PlainKeysAddress(before: Json, after: Json, p: Path)
    requires PlainKeys(before) && PlainKeys(after) && Reported(before, after, p)
    ensures DotFree(p) && (p != [] ==> p[0] != "")
    decreases |p|
  {
    if p != [] {
      NothingOutside(before, after);
      PlainKeysAddress(Member(before, p[0]), Member(after, p[0]), p[1..]);
      assert p == [p[0]] + p[1..];
    }
  }

  lemma PlainPatchRestores(before: Json, after: Json, out: seq<Change>)
    requires IsDiff("", before, after, out) && PlainKeys(before) && PlainKeys(after)
    ensures Prune(Patched(before, out)) == Prune(after)
  {
    forall p | Reported(before, after, p) ensures DotFree(p) && (p != [] ==> p[0] != "") {
      PlainKeysAddress(before, after, p);
    }
    PatchRestores(before, after, out);
  }

  // ------------------------------------------------------------ and back

  /** The changes the other way round. */
  function Turned(out: seq<Change>): (r: seq<Change>)
    ensures |r| == |out|
  {
    seq(|out|, i requires 0 <= i < |out| => Change(out[i].path, out[i].to, out[i].from))
  }

  lemma {:induction false} ReportedBothWays(before: Json, after: Json, p: Path)
    ensures Reported(before, after, p) <==> Reported(after, before, p)
    decreases |p|
  {
    if p != [] {
      ReportedBothWays(Member(before, p[0]), Member(after, p[0]), p[1..]);
    }
  }

  /** A diff turned round is a diff of the values turned round. */
  lemma DiffTurns(base: string, before: Json, after: Json, out: seq<Change>)
    requires IsDiff(base, before, after, out)
    ensures IsDiff(base, after, before, Turned(out))
  {
    var paths :| Lists(base, before, after, paths, out);
    forall p ensures Reported(before, after, p) <==> Reported(after, before, p) {
      ReportedBothWays(before, after, p);
    }
    forall i | 0 <= i < |out| ensures ChangeAt(base, after, before, paths[i], Turned(out)[i]) {
      assert ChangeAt(base, before, after, paths[i], out[i]);
    }
    assert Lists(base, after, before, paths, Turned(out));
  }

  /** The old values restore the old state from the new one. */
  lemma PatchesBack(before: Json, after: Json, out: seq<Change>)
    requires IsDiff("", before, after, out) && PlainKeys(before) && PlainKeys(after)
    ensures Prune(Patched(after, Turned(out))) == Prune(before)
  {
    DiffTurns("", before, after, out);
    PlainPatchRestores(after, before, Turned(out));
  }

  // ------------------------------------------------------------ keys that dotted paths cannot carry

  /** Every key of j, at any depth, is one of these. */
  predicate KeysFrom(j: Json, keys: set<string>)
    decreases j
  {
    j.Object? ==> forall k | k in j.members :: k in keys && KeysFrom(j.members[k], keys)
  }

  ghost predicate Restores(before: Json, after: Json, out: seq<Change>) {
    Prune(Patched(before, out)) == Prune(after)
  }

  lemma {:induction false} FromPlainKeys(j: Json, keys: set<string>)
    requires KeysFrom(j, keys) && forall k | k in keys :: k != "" && '.' !in k
    ensures PlainKeys(j)
    decreases j
  {
    if j.Object? {
      forall k | k in j.members ensures PlainKeys(j.members[k]) {
        FromPlainKeys(j.members[k], keys);
      }
    }
  }

  /** A new member is reported under its key alone. */
  lemma OneNewMember(key: string, v: Json)
    requires v != Null && !v.Object?
    ensures IsDiff("", Object(map[]), Object(map[key := v]), [Change(key, Null, v)])
  {
    var before, after, paths := Object(map[]), Object(map[key := v]), [[key]];
    forall p ensures Reported(before, after, p) <==> p == [key] {
      if p != [] {
        assert p == [p[0]] + p[1..];
      }
    }
    assert [key] in paths;
    assert ChangeAt("", before, after, [key], Change(key, Null, v));
    assert Lists("", before, after, paths, [Change(key, Null, v)]);
  }

  /** A member under an odd key is patched in elsewhere. */
  lemma OddKeyIsMisplaced(key: string)
    requires key == "" || '.' in key
    ensures !Restores(Object(map[]), Object(map[key := Bool(true)]), [Change(key, Null, Bool(true))])
  {
    var after, out := Object(map[key := Bool(true)]), [Change(key, Null, Bool(true))];
    var patched := Patched(Object(map[]), out);
    PruneMember(after, key);
    assert out[..0] == [] && Patched(Object(map[]), out[..0]) == Object(map[]);
    assert patched == SetAt(Object(map[]), SplitPath(key), Bool(true));
    if key != "" {
      PiecesAreFree(key, '.');
      assert SplitPath(key)[0] in SplitOn(key, '.');
      PatchedElsewhere(SplitPath(key), key);
    }
  }

  lemma PatchedElsewhere(p: Path, key: string)
    requires p != [] && p[0] != key
    ensures Member(Prune(SetAt(Object(map[]), p, Bool(true))), key) == Null
  {
    PruneMember(SetAt(Object(map[]), p, Bool(true)), key);
  }

  /** Patching restores every value made of these keys exactly when none of them is empty or has a dot. */
  lemma PatchingNeedsPlainKeys(keys: set<string>)
    ensures (forall before, after, out | KeysFrom(before, keys) && KeysFrom(after, keys) && IsDiff("", before, after, out)
               :: Restores(before, after, out))
       <==> forall k | k in keys :: k != "" && '.' !in k
  {
    if forall k | k in keys :: k != "" && '.' !in k {
      forall before, after, out | KeysFrom(before, keys) && KeysFrom(after, keys) && IsDiff("", before, after, out)
        ensures Restores(before, after, out)
      {
        FromPlainKeys(before, keys);
        FromPlainKeys(after, keys);
        PlainPatchRestores(before, after, out);
      }
    } else {
      var key :| key in keys && (key == "" || '.' in key);
      OneNewMember(key, Bool(true));
      OddKeyIsMisplaced(key);
      assert KeysFrom(Object(map[]), keys) && KeysFrom(Object(map[key := Bool(true)]), keys);
    }
  }

  /** One diff whose two changes have the same dotted path. */
  lemma OddKeysCollide() returns (before: Json, after: Json, out: seq<Change>)
    ensures IsDiff("", before, after, out) && |out| == 2 && out[0].path == out[1].path && out[0].to != out[1].to
  {
    var inner := Object(map["b" := Bool(false)]);
    before, after := Object(map[]), Object(map["a.b" := Bool(true), "a" := inner]);
    var x, y := ["a.b"], ["a", "b"];
    var paths := [x, y];
    out := [Change("a.b", Null, Bool(true)), Change("a.b", Null, Bool(false))];
    assert y[1..] == ["b"] && ["b"][1..] == [] && x[1..] == [];
    assert Member(after, "a.b") == Bool(true) && Member(after, "a") == inner && Member(inner, "b") == Bool(false);
    forall p ensures Reported(Null, inner, p) <==> p == ["b"] {
      if p != [] {
        assert p == [p[0]] + p[1..];
      }
    }
    forall p ensures Reported(before, after, p) <==> p == x || p == y {
      if p != [] {
        assert p == [p[0]] + p[1..];
      }
    }
    assert "a" + "." + "b" == "a.b";
    assert Dotted("", x) == "a.b" && Dotted("", y) == "a.b";
    assert ChangeAt("", before, after, paths[0], out[0]) && ChangeAt("", before, after, paths[1], out[1]);
    assert x in paths && y in paths;
    assert Lists("", before, after, paths, out);
  }
}
