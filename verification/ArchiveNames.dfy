/**
 Which places a backup carries, and that the names of its entries lead back to them: zip.go:56-147 and 266-311.

 A carried file is one of the world's four flat files, an allowed file of its directory, or one of the lists at the root
 of the save directory. Its entry is named after the place; restoring reads the place off the name again. The name is
 taken apart by prefixes, by the last slash and by suffixes, and each lemma settles one of these for one kind of place.
 */
module ArchiveNames {
  import opened Ascii
  import opened SaveTree
  import opened WorldNames
  import opened WorldScan
  import opened Wrappers

  /** Names Valheim's worlds have; the instance settings allow fewer still. */
  predicate PlainName(world: string) {
    ValidWorldName(world) && !HasBackslash(world)
  }

  /** A character that worlds.go:18-23 lets pass in a name and zip.go:292 does not. */
  predicate HasBackslash(world: string) {
    '\\' in world
  }

  /** The listing is of the world's directory. */
  ghost predicate ListsDir(tree: Tree, world: string, listing: seq<string>) {
    forall n {:trigger InDir(world, n)} :: n in listing <==> InDir(world, n) in tree
  }

  /** The places a backup of the world looks at. */
  predicate Carried(save: Save, p: Place) {
    || IsFlatOf(save.name, p, |SUFFIXES|)
    || (save.dir && p.InDir? && p.dir == save.name && AllowedDirFile(p.name))
    || (p.Root? && p.name in LISTS)
  }

  /** Of these the ones that restoring puts back: a backslash in the name costs the flat files. */
  predicate Returns(save: Save, p: Place) {
    Carried(save, p) && !(p.Flat? && HasBackslash(save.name))
  }

  lemma PrefixOf(a: string, b: string)
    ensures HasPrefix(a + b, a)
  {
  }

  lemma PrefixCut(p: string, a: string, b: string)
    ensures HasPrefix(p + a, p + b) <==> HasPrefix(a, b)
  {
    if |b| <= |a| {
      assert (p + a)[..|p + b|] == p + a[..|b|];
      assert (p + a[..|b|])[|p|..] == a[..|b|] && (p + b)[|p|..] == b;
    }
  }

  lemma RootTarget(world: string, name: string)
    requires name in LISTS
    ensures TargetOf(world, ArcName(Root(name))) == Some(Root(name))
  {
  }

  lemma FlatSlashless(world: string, j: nat)
    requires PlainName(world) && j < |SUFFIXES|
    ensures Slashless(world + SUFFIXES[j]) && world + SUFFIXES[j] != ""
  {
    SlashlessBoth(world, SUFFIXES[j]);
  }

  lemma FlatAllowed(world: string, j: nat)
    requires j < |SUFFIXES|
    ensures AllowedFileSuffix(world + SUFFIXES[j])
  {
    SuffixOf(world, SUFFIXES[j]);
  }

  lemma FlatPrefixed(world: string, j: nat)
    requires j < |SUFFIXES|
    ensures HasPrefix(world + SUFFIXES[j], world + ".") && !HasPrefix(world + SUFFIXES[j], world + "/")
  {
    var suffix := SUFFIXES[j];
    PrefixCut(world, suffix, ".");
    PrefixCut(world, suffix, "/");
    assert suffix[0] == '.' && "/"[0] == '/';
  }

  lemma SuffixOf(a: string, b: string)
    ensures HasSuffix(a + b, b)
  {
  }

  lemma SlashlessBoth(a: string, b: string)
    requires Slashless(a) && Slashless(b)
    ensures Slashless(a + b)
  {
  }

  lemma FlatTarget(world: string, j: nat)
    requires PlainName(world) && j < |SUFFIXES|
    ensures TargetOf(world, ArcName(FlatAt(world, j))) == Some(FlatAt(world, j))
  {
    var n := world + SUFFIXES[j];
    FlatSlashless(world, j);
    FlatAllowed(world, j);
    FlatPrefixed(world, j);
    FlatGoes(world, n);
  }

  /** An entry directly in worlds_local. */
  lemma FlatGoes(world: string, n: string)
    requires '/' !in n && n != "" && !HasPrefix(n, world + "/")
    ensures TargetOf(world, WORLDS + n) == FlatTargetOf(world, n)
  {
    BaseIs(WORLDS, n);
    NotBelow(world, n);
    NotAList(n);
    LastOf(WORLDS, n);
    PrefixOf(WORLDS, n);
  }

  lemma LastOf(a: string, b: string)
    requires b != "" && '/' !in b
    ensures !HasSuffix(a + b, "/")
  {
    assert (a + b)[|a + b| - 1] == b[|b| - 1];
  }

  lemma NotAList(n: string)
    ensures WORLDS + n !in LISTS
  {
    assert (WORLDS + n)[0] == 'w';
  }

  lemma NotBelow(world: string, n: string)
    requires !HasPrefix(n, world + "/")
    ensures !HasPrefix(WORLDS + n, WORLDS + world + "/")
  {
    PrefixCut(WORLDS, n, world + "/");
    assert WORLDS + world + "/" == WORLDS + (world + "/");
  }

  lemma DirTarget(world: string, n: string)
    requires AllowedDirFile(n)
    ensures TargetOf(world, ArcName(InDir(world, n))) == Some(InDir(world, n))
  {
    AllowedHasNoSlash(n);
    DirGoes(world, n);
  }

  /** An entry of the world's directory. */
  lemma DirGoes(world: string, n: string)
    requires '/' !in n && n != ""
    ensures TargetOf(world, WORLDS + world + "/" + n) == DirTargetOf(world, n)
  {
    var dir := WORLDS + world + "/";
    PrefixOf(dir, n);
    BaseIs(dir, n);
    LastOf(dir, n);
    NotAList(world + "/" + n);
    assert dir + n == WORLDS + (world + "/" + n);
  }

  lemma AllowedHasNoSlash(n: string)
    requires AllowedDirFile(n)
    ensures '/' !in n && n != ""
  {
    if MainFile(n).Some? {
      MainHasNoSlash(n);
    }
  }

  lemma ManifestTarget(world: string)
    ensures TargetOf(world, MANIFEST) == None
  {
    assert MANIFEST[0] == 'm' && WORLDS[0] == 'w' && MANIFEST[|MANIFEST| - 1] == 'n';
    assert !HasPrefix(MANIFEST, WORLDS);
    assert (WORLDS + world + "/")[0] == 'w';
  }

  /** The entry of a carried file leads back to its place, or nowhere. */
  lemma CarriedTarget(save: Save, p: Place)
    requires ValidWorldName(save.name) && Carried(save, p)
    ensures TargetOf(save.name, ArcName(p)) == if Returns(save, p) then Some(p) else None
  {
    if p.InDir? {
      DirTarget(save.name, p.name);
    } else if p.Root? {
      RootTarget(save.name, p.name);
    } else {
      var j: nat :| j < |SUFFIXES| && p == FlatAt(save.name, j);
      if HasBackslash(save.name) {
        BackslashIsLost(save.name, j);
      } else {
        FlatTarget(save.name, j);
      }
    }
  }

  /** A backslash in the name costs the world's flat files: they are removed and never restored. */
  lemma BackslashIsLost(world: string, j: nat)
    requires ValidWorldName(world) && HasBackslash(world) && j < |SUFFIXES|
    ensures TargetOf(world, ArcName(FlatAt(world, j))) == None && Owned(world, FlatAt(world, j))
  {
    var n := world + SUFFIXES[j];
    FlatPrefixed(world, j);
    assert forall k | 0 <= k < |n| :: k < |world| || n[k] == SUFFIXES[j][k - |world|];
    FlatGoes(world, n);
    var k :| 0 <= k < |world| && world[k] == '\\';
    assert n[k] == '\\';
  }
}
