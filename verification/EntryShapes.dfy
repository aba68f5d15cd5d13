/** Where the entries of any archive go, told by the shapes of their names: internal/backup/zip.go:232-311 and 417-500. */
module EntryShapes {
  import opened ArchiveNames
  import opened Ascii
  import opened SaveShapes
  import opened SaveTree
  import opened WorldImport
  import opened WorldNames
  import opened WorldShapes
  import opened Wrappers

  // ------------------------------------------------------------ one entry, restoring

  /** name is n somewhere below root, which ends with a slash. */
  predicate IsPathTo(name: string, root: string, mid: string, n: string) {
    name == root + mid + n && (mid == "" || mid[|mid| - 1] == '/') && n != "" && '/' !in n
  }

  ghost predicate IsBelow(name: string, root: string, n: string) {
    exists mid :: IsPathTo(name, root, mid, n)
  }

  /** The flat files a restore lays down: of the world, with one of the four endings. */
  predicate IsFlatOfWorld(world: string, n: string) {
    && '\\' !in n && world + "." <= n
    && (HasSuffix(n, ".db") || HasSuffix(n, ".fwl") || HasSuffix(n, ".db.old") || HasSuffix(n, ".fwl.old"))
  }

  /** The entry of this name is for the place p. */
  ghost predicate IsFor(world: string, name: string, p: Place) {
    match p
    case Root(n) => name == n && IsListName(n)
    case InDir(d, n) => d == world && (IsMainName(n) || IsChunkName(n)) && IsBelow(name, "worlds_local/" + world + "/", n)
    case Flat(n) => !("worlds_local/" + world + "/" <= name) && IsFlatOfWorld(world, n) && IsBelow(name, "worlds_local/", n)
  }

  lemma SlashInside(root: string, mid: string, n: string)
    requires root != "" && root[|root| - 1] == '/' && (mid == "" || mid[|mid| - 1] == '/') && '/' !in n && n != ""
    ensures Base(root + mid + n) == n && !HasSuffix(root + mid + n, "/")
  {
    assert (root + mid)[|root + mid| - 1] == '/';
    BaseIs(root + mid, n);
    LastOf(root + mid, n);
  }

  /** Whatever begins with root and does not end with a slash is its last part below root. */
  lemma BaseIsBelow(name: string, root: string)
    requires root != "" && root[|root| - 1] == '/' && root <= name && !HasSuffix(name, "/")
    ensures IsBelow(name, root, Base(name))
  {
    var j := AfterLast(name, '/', |name|);
    AfterLastFinds(name, '/', |name|);
    assert name[|root| - 1] == '/';
    var mid := name[|root|..j];
    assert mid != "" ==> mid[|mid| - 1] == name[j - 1];
    assert name[|name| - 1..] == [name[|name| - 1]];
    CutInThree(name, root, j);
    assert IsPathTo(name, root, mid, name[j..]);
  }

  lemma CutInThree(name: string, root: string, j: nat)
    requires root <= name && |root| <= j <= |name|
    ensures name == root + name[|root|..j] + name[j..]
  {
  }

  lemma BelowIsBase(name: string, root: string, n: string)
    requires root != "" && root[|root| - 1] == '/'
    ensures IsBelow(name, root, n) <==> root <= name && !HasSuffix(name, "/") && n == Base(name)
  {
    if mid :| IsPathTo(name, root, mid, n) {
      SlashInside(root, mid, n);
    }
    if root <= name && !HasSuffix(name, "/") {
      BaseIsBelow(name, root);
    }
  }

  lemma SuffixShape(n: string)
    ensures AllowedFileSuffix(n)
      <==> HasSuffix(n, ".db") || HasSuffix(n, ".fwl") || HasSuffix(n, ".db.old") || HasSuffix(n, ".fwl.old")
  {
    assert SUFFIXES[0] == ".db" && SUFFIXES[1] == ".fwl" && SUFFIXES[2] == ".db.old" && SUFFIXES[3] == ".fwl.old";
  }

  lemma RootsEnd(world: string)
    ensures var root := WORLDS + world + "/"; root[|root| - 1] == '/' && WORLDS <= root
    ensures WORLDS[|WORLDS| - 1] == '/'
  {
  }

  lemma ListsAreElsewhere(name: string)
    ensures name in LISTS <==> IsListName(name)
    ensures name in LISTS ==> !(WORLDS <= name) && !HasSuffix(name, "/")
  {
    assert WORLDS[0] == 'w';
  }

  /** An entry goes exactly where its name says. */
  lemma TargetShape(world: string, name: string, p: Place)
    ensures TargetOf(world, name) == Some(p) <==> IsFor(world, name, p)
  {
    var root := WORLDS + world + "/";
    RootsEnd(world);
    ListsAreElsewhere(name);
    match p
    case Root(n) =>
    case InDir(d, n) =>
      BelowIsBase(name, root, n);
      AllowedShape(n);
    case Flat(n) =>
      BelowIsBase(name, WORLDS, n);
      SuffixShape(n);
  }

  // ------------------------------------------------------------ any archive, restored

  /** Entry k is the last of the archive for the place. */
  ghost predicate IsLastFor(world: string, zip: seq<Entry>, k: nat, p: Place) {
    && k < |zip| && IsFor(world, zip[k].name, p)
    && forall j | k < j < |zip| :: !IsFor(world, zip[j].name, p)
  }

  ghost predicate NoneIsFor(world: string, zip: seq<Entry>, p: Place) {
    forall j | 0 <= j < |zip| :: !IsFor(world, zip[j].name, p)
  }

  lemma LaidOne(tree: Tree, world: string, front: seq<Entry>, e: Entry, p: Place)
    ensures var after, before := Laid(tree, world, front + [e]), Laid(tree, world, front);
      if IsFor(world, e.name, p) then p in after && after[p] == e.bytes else SameAt(after, before, p)
  {
    assert (front + [e])[..|front|] == front;
    TargetShape(world, e.name, p);
  }

  ghost predicate HoldsLast(after: Tree, world: string, zip: seq<Entry>, p: Place) {
    forall k: nat | IsLastFor(world, zip, k, p) :: p in after && after[p] == zip[k].bytes
  }

  ghost predicate KeepsOthers(after: Tree, tree: Tree, world: string, zip: seq<Entry>, p: Place) {
    NoneIsFor(world, zip, p) ==> SameAt(after, tree, p)
  }

  lemma LastForSnoc(world: string, front: seq<Entry>, e: Entry, k: nat, p: Place)
    requires IsLastFor(world, front + [e], k, p)
    ensures if k < |front| then IsLastFor(world, front, k, p) && !IsFor(world, e.name, p) else IsFor(world, e.name, p)
  {
    var zip := front + [e];
    assert zip[|front|] == e;
    assert forall j | 0 <= j < |front| :: zip[j] == front[j];
  }

  lemma NoneForSnoc(world: string, front: seq<Entry>, e: Entry, p: Place)
    requires NoneIsFor(world, front + [e], p)
    ensures NoneIsFor(world, front, p) && !IsFor(world, e.name, p)
  {
    var zip := front + [e];
    assert zip[|front|] == e;
    assert forall j | 0 <= j < |front| :: zip[j] == front[j];
  }

  lemma LaidSnoc(tree: Tree, world: string, front: seq<Entry>, e: Entry, p: Place)
    requires HoldsLast(Laid(tree, world, front), world, front, p)
    requires KeepsOthers(Laid(tree, world, front), tree, world, front, p)
    ensures HoldsLast(Laid(tree, world, front + [e]), world, front + [e], p)
    ensures KeepsOthers(Laid(tree, world, front + [e]), tree, world, front + [e], p)
  {
    var zip := front + [e];
    var after, before := Laid(tree, world, zip), Laid(tree, world, front);
    LaidOne(tree, world, front, e, p);
    forall k: nat | IsLastFor(world, zip, k, p) ensures p in after && after[p] == zip[k].bytes {
      LastForSnoc(world, front, e, k, p);
      assert k < |front| ==> before[p] == front[k].bytes;
    }
    if NoneIsFor(world, zip, p) {
      NoneForSnoc(world, front, e, p);
    }
  }

  lemma {:induction false} LaidByShape(tree: Tree, world: string, zip: seq<Entry>, p: Place)
    ensures HoldsLast(Laid(tree, world, zip), world, zip, p)
    ensures KeepsOthers(Laid(tree, world, zip), tree, world, zip, p)
  {
    if zip != [] {
      var front, e := zip[..|zip| - 1], zip[|zip| - 1];
      assert zip == front + [e];
      LaidByShape(tree, world, front, p);
      LaidSnoc(tree, world, front, e, p);
    }
  }

  /** Of several entries for a place there is a last. */
  lemma {:induction false} LastOfSome(world: string, zip: seq<Entry>, p: Place, n: nat)
    requires n <= |zip| && forall j | n <= j < |zip| :: !IsFor(world, zip[j].name, p)
    ensures NoneIsFor(world, zip, p) || exists k: nat :: IsLastFor(world, zip, k, p)
  {
    if n > 0 {
      if IsFor(world, zip[n - 1].name, p) {
        assert IsLastFor(world, zip, n - 1, p);
      } else {
        LastOfSome(world, zip, p, n - 1);
      }
    }
  }

  /**
   Restoring any archive: a place with an entry gets the bytes of the last one, the rest of the world goes, and every
   other file stays as it was.
   */
  lemma AnyArchive(tree: Tree, world: string, zip: seq<Entry>, p: Place)
    ensures var after := Restored(tree, world, zip);
      && (forall k: nat | IsLastFor(world, zip, k, p) :: p in after && after[p] == zip[k].bytes)
      && (NoneIsFor(world, zip, p) ==> if IsOfWorld(world, p) then p !in after else SameAt(after, tree, p))
    ensures NoneIsFor(world, zip, p) || exists k: nat :: IsLastFor(world, zip, k, p)
  {
    LastOfSome(world, zip, p, |zip|);
    LaidByShape(Removed(tree, world), world, zip, p);
    OwnedShape(world, p);
  }

  /** Nothing is written outside the world's files and the three lists, whatever the archive holds. */
  lemma NothingElsewhere(tree: Tree, world: string, zip: seq<Entry>, p: Place)
    requires match p
      case Root(n) => !IsListName(n)
      case InDir(d, n) => d != world
      case Flat(n) => !(world + "." <= n)
    ensures SameAt(Restored(tree, world, zip), tree, p)
  {
    AnyArchive(tree, world, zip, p);
    assert NoneIsFor(world, zip, p);
    if p.Flat? && IsFlatName(world, p.name) {
      FlatBegins(world, p.name);
    }
  }

  lemma FlatBegins(world: string, n: string)
    requires IsFlatName(world, n)
    ensures world + "." <= n
  {
  }

  // ------------------------------------------------------------ one entry, importing

  ghost predicate IsDirEntry(arc: string, d: string, n: string) {
    arc == d + "/" + n && '/' !in n
  }

  /** A half of a world is a file with its extension, directly in worlds_local or at the top. */
  lemma HalfHasShape(arc: string, stem: string, isDB: bool)
    requires RoleOf(arc) == Half(stem, isDB)
    ensures arc == TrimWorlds(arc) || arc == "worlds_local/" + TrimWorlds(arc)
    ensures IsHalf(TrimWorlds(arc), stem, if isDB then ".db" else ".fwl")
    ensures '/' !in TrimWorlds(arc) && '\\' !in TrimWorlds(arc)
  {
    var name := TrimWorlds(arc);
    AfterLastFinds(name, '/', |name|);
    assert arc == name || arc == WORLDS + name;
    HalfShape(name, stem, if isDB then ".db" else ".fwl");
  }

  /** A file of a world is a main or chunk file below a directory that bears the world's name. */
  lemma InWorldHasShape(arc: string, world: string, n: string)
    requires RoleOf(arc) == InWorld(world, n)
    ensures arc == TrimWorlds(arc) || arc == "worlds_local/" + TrimWorlds(arc)
    ensures exists d :: IsDirEntry(TrimWorlds(arc), d, n) && DirBase(d) == world
    ensures (IsMainName(n) || IsChunkName(n)) && world != "" && world != "." && world != ".." && '/' !in world
  {
    var name := TrimWorlds(arc);
    assert arc == name || arc == WORLDS + name;
    var i := InWorldParts(name, world, n);
    AllowedShape(n);
    CutAtSlash(name, i);
    assert IsDirEntry(name, name[..i - 1], n);
  }

  lemma InWorldParts(name: string, world: string, n: string) returns (i: nat)
    requires RoleIn(name) == InWorld(world, n)
    ensures 0 < i <= |name| && name[i - 1] == '/' && '/' !in name[i..]
    ensures n == name[i..] && world == DirBase(name[..i - 1]) && AllowedDirFile(n) && ValidWorldName(world)
  {
    i := AfterLast(name, '/', |name|);
    AfterLastFinds(name, '/', |name|);
    if i > 0 {
      DirRoleParts(name[..i - 1], name[i..], world, n);
    } else {
      FlatIsNoDir(name);
    }
  }

  lemma FlatIsNoDir(base: string)
    ensures !FlatRoleOf(base).InWorld?
  {
  }

  lemma DirRoleParts(dir: string, base: string, world: string, n: string)
    requires DirRoleOf(dir, base) == InWorld(world, n)
    ensures n == base && world == DirBase(dir) && AllowedDirFile(n) && ValidWorldName(world)
  {
  }

  lemma CutAtSlash(name: string, i: nat)
    requires 0 < i <= |name| && name[i - 1] == '/'
    ensures name == name[..i - 1] + "/" + name[i..]
  {
  }
}
