/** Restoring a backup gives back what was saved and touches nothing else: zip.go:56-147 and 232-311. */
module BackupRoundTrip {
  import opened ArchiveNames
  import opened Ascii
  import opened SaveTree
  import opened WorldNames
  import opened WorldScan
  import opened Wrappers

  // ------------------------------------------------------------ laying entries down

  lemma LaidSnoc(tree: Tree, world: string, zip: seq<Entry>, e: Entry)
    ensures Laid(tree, world, zip + [e])
         == match TargetOf(world, e.name) { case None => Laid(tree, world, zip) case Some(p) => Laid(tree, world, zip)[p := e.bytes] }
  {
    assert (zip + [e])[..|zip|] == zip;
  }

  predicate Lands(save: Save, from: Tree, places: seq<Place>, p: Place) {
    p in places && p in from && Returns(save, p)
  }

  /** The content of a place after the files of places, as they are in `from`, were laid over tree. */
  ghost predicate IsLaid(after: Tree, tree: Tree, save: Save, from: Tree, places: seq<Place>) {
    forall p {:trigger p in after} ::
      && (p in after <==> p in tree || Lands(save, from, places, p))
      && (p in after ==> after[p] == if Lands(save, from, places, p) then from[p] else tree[p])
  }

  lemma LandsSnoc(save: Save, from: Tree, front: seq<Place>, p: Place, q: Place)
    ensures Lands(save, from, front + [p], q) <==> Lands(save, from, front, q) || (q == p && p in from && Returns(save, p))
  {
  }

  lemma {:induction false} CollectedIsLaid(tree: Tree, save: Save, from: Tree, places: seq<Place>)
    requires ValidWorldName(save.name) && forall p | p in places :: Carried(save, p)
    ensures IsLaid(Laid(tree, save.name, Collected(from, places)), tree, save, from, places)
  {
    if places != [] {
      var front, p := places[..|places| - 1], places[|places| - 1];
      CollectedIsLaid(tree, save, from, front);
      assert places == front + [p];
      forall q ensures Lands(save, from, places, q) <==> Lands(save, from, front, q) || (q == p && p in from && Returns(save, p)) {
        LandsSnoc(save, from, front, p, q);
      }
      if p in from {
        CarriedTarget(save, p);
        LaidSnoc(tree, save.name, Collected(from, front), Entry(ArcName(p), from[p], ""));
      }
    }
  }

  lemma {:induction false} DirPlacesAre(world: string, listing: seq<string>, p: Place)
    ensures p in DirPlaces(world, listing) <==> p.InDir? && p.dir == world && p.name in listing && AllowedDirFile(p.name)
  {
    if listing != [] {
      DirPlacesAre(world, listing[..|listing| - 1], p);
      assert listing == listing[..|listing| - 1] + [listing[|listing| - 1]];
    }
  }

  lemma LegacyPlacesAre(world: string, p: Place)
    ensures p in LegacyPlaces(world) <==> IsFlatOf(world, p, |SUFFIXES|)
  {
    assert LegacyPlaces(world) == [FlatAt(world, 1), FlatAt(world, 0), FlatAt(world, 3), FlatAt(world, 2)];
    assert IsFlatOf(world, p, |SUFFIXES|) <==>
      p == FlatAt(world, 0) || p == FlatAt(world, 1) || p == FlatAt(world, 2) || p == FlatAt(world, 3);
  }

  lemma ListPlacesAre(p: Place)
    ensures p in ListPlaces() <==> p.Root? && p.name in LISTS
  {
    assert ListPlaces() == [Root(LISTS[0]), Root(LISTS[1]), Root(LISTS[2])];
    assert p.Root? && p.name in LISTS ==> p == Root(LISTS[0]) || p == Root(LISTS[1]) || p == Root(LISTS[2]);
  }

  /** The places a backup looks at are the carried ones. */
  lemma PlacesAreCarried(save: Save, listing: seq<string>, p: Place)
    ensures p in WorldPlaces(save, listing) + ListPlaces() ==> Carried(save, p)
    ensures Carried(save, p) && (p.InDir? ==> p.name in listing) ==> p in WorldPlaces(save, listing) + ListPlaces()
  {
    DirPlacesAre(save.name, listing, p);
    LegacyPlacesAre(save.name, p);
    ListPlacesAre(p);
  }

  // ------------------------------------------------------------ the archive names its world

  lemma {:induction false} CollectedHasNoManifest(tree: Tree, places: seq<Place>)
    requires forall p | p in places :: ArcName(p) != MANIFEST
    ensures ManifestWorld(Collected(tree, places)) == ""
  {
    if places != [] {
      var front := places[..|places| - 1];
      CollectedHasNoManifest(tree, front);
      var zip := Collected(tree, places);
      assert places[|places| - 1] in tree ==> zip[..|zip| - 1] == Collected(tree, front);
    }
  }

  lemma CarriedIsNoManifest(save: Save, p: Place)
    requires Carried(save, p)
    ensures ArcName(p) != MANIFEST
  {
    assert !p.Root? ==> ArcName(p)[0] == 'w';
  }

  /** A backup is recognised as one of the world it was made for. */
  lemma BackupNamesWorld(tree: Tree, save: Save, listing: seq<string>, manifest: Bytes)
    requires save.name != ""
    ensures WorldName(Backup(tree, save, listing, manifest)) == save.name
  {
    var places := WorldPlaces(save, listing) + ListPlaces();
    forall p | p in places ensures ArcName(p) != MANIFEST {
      PlacesAreCarried(save, listing, p);
      CarriedIsNoManifest(save, p);
    }
    CollectedHasNoManifest(tree, places);
    var zip := Backup(tree, save, listing, manifest);
    assert zip[..|zip| - 1] == Collected(tree, places);
  }

  // ------------------------------------------------------------ the round trip

  /** What restoring a backup of `from` over `tree` leaves: the files it puts back, nothing else of the world, and all the rest. */
  ghost predicate IsLeft(after: Tree, tree: Tree, from: Tree, save: Save) {
    forall p {:trigger p in after} ::
      if Returns(save, p) && p in from then p in after && after[p] == from[p]
      else if Owned(save.name, p) then p !in after
      else (p in after <==> p in tree) && (p in after ==> after[p] == tree[p])
  }

  /** What it should leave: all files the backup carried. */
  ghost predicate IsRestored(after: Tree, tree: Tree, from: Tree, save: Save) {
    forall p {:trigger p in after} ::
      if Carried(save, p) && p in from then p in after && after[p] == from[p]
      else if Owned(save.name, p) then p !in after
      else (p in after <==> p in tree) && (p in after ==> after[p] == tree[p])
  }

  /** Backing up a world and restoring the backup over any later state of the save directory, for every world name. */
  lemma RestoreLeaves(from: Tree, tree: Tree, save: Save, listing: seq<string>, manifest: Bytes)
    requires ValidWorldName(save.name) && ListsDir(from, save.name, listing)
    ensures var zip := Backup(from, save, listing, manifest);
      && Outcome(zip) == (if TotalSize(zip) > MAX_ARCHIVE_BYTES then Err(TooLarge) else Ok(save.name))
      && IsLeft(Restored(tree, save.name, zip), tree, from, save)
  {
    BackupNamesWorld(from, save, listing, manifest);
    var places := WorldPlaces(save, listing) + ListPlaces();
    var base := Removed(tree, save.name);
    forall p | p in places ensures Carried(save, p) {
      PlacesAreCarried(save, listing, p);
    }
    CollectedIsLaid(base, save, from, places);
    ManifestTarget(save.name);
    LaidSnoc(base, save.name, Collected(from, places), Entry(MANIFEST, manifest, save.name));
    var after := Restored(tree, save.name, Backup(from, save, listing, manifest));
    assert IsLaid(after, base, save, from, places);
    forall p ensures Lands(save, from, places, p) <==> Returns(save, p) && p in from {
      PlacesAreCarried(save, listing, p);
    }
    LaidIsLeft(after, tree, save, from, places);
  }

  lemma LaidIsLeft(after: Tree, tree: Tree, save: Save, from: Tree, places: seq<Place>)
    requires IsLaid(after, Removed(tree, save.name), save, from, places)
    requires forall p :: Lands(save, from, places, p) <==> Returns(save, p) && p in from
    ensures IsLeft(after, tree, from, save)
  {
    forall p
      ensures if Returns(save, p) && p in from then p in after && after[p] == from[p]
              else if Owned(save.name, p) then p !in after
              else (p in after <==> p in tree) && (p in after ==> after[p] == tree[p])
    {
      assert Lands(save, from, places, p) <==> Returns(save, p) && p in from;
      assert p in after <==> p in Removed(tree, save.name) || Lands(save, from, places, p);
    }
  }

  /** The restored tree is as it should be exactly when there was no flat file to lose to a backslash in the name. */
  lemma RestoreGivesBack(from: Tree, tree: Tree, save: Save, listing: seq<string>, manifest: Bytes)
    requires ValidWorldName(save.name) && ListsDir(from, save.name, listing)
    ensures IsRestored(Restored(tree, save.name, Backup(from, save, listing, manifest)), tree, from, save)
       <==> !HasBackslash(save.name) || forall j: nat | j < |SUFFIXES| :: FlatAt(save.name, j) !in from
  {
    RestoreLeaves(from, tree, save, listing, manifest);
    var after := Restored(tree, save.name, Backup(from, save, listing, manifest));
    if HasBackslash(save.name) {
      if j: nat :| j < |SUFFIXES| && FlatAt(save.name, j) in from {
        var p := FlatAt(save.name, j);
        assert IsFlatOf(save.name, p, |SUFFIXES|) && Carried(save, p) && !Returns(save, p) && Owned(save.name, p);
        assert p !in after;
      } else {
        forall p | p in from && Carried(save, p) ensures Returns(save, p) {
          if p.Flat? {
            var j: nat :| j < |SUFFIXES| && p == FlatAt(save.name, j);
            assert false;
          }
        }
      }
    }
  }

  // ------------------------------------------------------------ what a scan then reports

  /** A file the scan takes for the world's although its extension is not in lower case. */
  ghost predicate OddCase(tree: Tree, world: string, ext: string) {
    exists n {:trigger Flat(n)} :: Flat(n) in tree && CountsAs(n, world, ext) && n != world + ext
  }

  lemma SuffixStems(world: string, ext: string)
    requires ext in [".db", ".fwl"] && !IsBackupStem(world)
    ensures CountsAs(world + ext, world, ext)
  {
    assert world + ext == world + "." + ext[1..];
    ExtIs(world, ext[1..]);
    assert ToLower("." + ext[1..]) == ext;
  }

  lemma OldStems(world: string, ext: string, n: string)
    requires ext in [".db", ".fwl"] && n in [world + ".db.old", world + ".fwl.old"]
    ensures LowerExt(n) != ext
  {
    var stem := n[..|n| - 4];
    assert n == stem + "." + "old";
    ExtIs(stem, "old");
    assert ToLower("." + "old")[1] == 'o';
  }

  /** A file that counts for the world is owned by it only under its plain name. */
  lemma CountedIsPlain(world: string, ext: string, n: string)
    requires ext in [".db", ".fwl"] && CountsAs(n, world, ext)
    ensures IsFlatOf(world, Flat(n), |SUFFIXES|) <==> n == world + ext
  {
    var other := if ext == ".db" then ".fwl" else ".db";
    SuffixStems(world, other);
    assert n != world + other;
    if n in [world + ".db.old", world + ".fwl.old"] {
      OldStems(world, ext, n);
    }
    assert IsFlatOf(world, Flat(n), |SUFFIXES|) <==>
      Flat(n) == FlatAt(world, 0) || Flat(n) == FlatAt(world, 1) || Flat(n) == FlatAt(world, 2) || Flat(n) == FlatAt(world, 3);
  }

  lemma LegacyIsPlainOrOdd(tree: Tree, world: string, ext: string)
    requires ext in [".db", ".fwl"]
    ensures HasLegacy(tree, world, ext) <==> !IsBackupStem(world) && (Flat(world + ext) in tree || OddCase(tree, world, ext))
  {
    if !IsBackupStem(world) {
      SuffixStems(world, ext);
    }
  }

  /** Odd-case files are neither carried nor removed. */
  lemma OddCaseStays(after: Tree, tree: Tree, from: Tree, save: Save, ext: string)
    requires IsLeft(after, tree, from, save) && ext in [".db", ".fwl"]
    ensures OddCase(after, save.name, ext) <==> OddCase(tree, save.name, ext)
    ensures Flat(save.name + ext) in after <==> Flat(save.name + ext) in from && !HasBackslash(save.name)
  {
    forall n | CountsAs(n, save.name, ext) && n != save.name + ext ensures Flat(n) in after <==> Flat(n) in tree {
      CountedIsPlain(save.name, ext, n);
    }
    assert FlatAt(save.name, 0) == Flat(save.name + ".db") && FlatAt(save.name, 1) == Flat(save.name + ".fwl");
  }

  lemma DirNamesAfter(after: Tree, tree: Tree, from: Tree, save: Save, n: string)
    requires IsLeft(after, tree, from, save)
    ensures n in NamesIn(after, save.name) <==> save.dir && n in NamesIn(from, save.name) && AllowedDirFile(n)
  {
    assert InDir(save.name, n) in after <==> save.dir && InDir(save.name, n) in from && AllowedDirFile(n);
  }

  lemma DirAfter(after: Tree, tree: Tree, from: Tree, save: Save)
    requires IsLeft(after, tree, from, save)
    ensures HasMain(NamesIn(after, save.name)) <==> save.dir && HasMain(NamesIn(from, save.name))
    ensures save.dir ==> forall g, ext :: Has(NamesIn(after, save.name), g, ext) <==> Has(NamesIn(from, save.name), g, ext)
  {
    forall n | MainFile(n).Some? ensures n in NamesIn(after, save.name) <==> save.dir && n in NamesIn(from, save.name) {
      DirNamesAfter(after, tree, from, save, n);
    }
  }

  /**
   The legacy flag of a restored world is the one saved: with the plain file put back it is; otherwise what is left
   are the odd-case files of the tree.
   */
  ghost predicate LegacyAgrees(from: Tree, tree: Tree, world: string, ext: string) {
    || IsBackupStem(world)
    || if Flat(world + ext) in from then !HasBackslash(world) || OddCase(tree, world, ext)
       else OddCase(from, world, ext) <==> OddCase(tree, world, ext)
  }

  /**
   A scan of the restored tree reports the saved generation and flags, even over a tree that held a higher
   generation, exactly when the legacy flags agree.
   */
  lemma ScanAfterRestore(from: Tree, tree: Tree, save: Save, listing: seq<string>, manifest: Bytes)
    requires ValidWorldName(save.name) && ListsDir(from, save.name, listing) && Describes(from, save.name, save)
    ensures Describes(Restored(tree, save.name, Backup(from, save, listing, manifest)), save.name, save)
      <==> LegacyAgrees(from, tree, save.name, ".db") && LegacyAgrees(from, tree, save.name, ".fwl")
  {
    RestoreLeaves(from, tree, save, listing, manifest);
    var after := Restored(tree, save.name, Backup(from, save, listing, manifest));
    DirAfter(after, tree, from, save);
    LegacyAfter(after, tree, from, save, ".db");
    LegacyAfter(after, tree, from, save, ".fwl");
  }

  lemma LegacyAfter(after: Tree, tree: Tree, from: Tree, save: Save, ext: string)
    requires IsLeft(after, tree, from, save) && ext in [".db", ".fwl"]
    ensures (HasLegacy(after, save.name, ext) <==> HasLegacy(from, save.name, ext)) <==> LegacyAgrees(from, tree, save.name, ext)
  {
    OddCaseStays(after, tree, from, save, ext);
    LegacyIsPlainOrOdd(after, save.name, ext);
    LegacyIsPlainOrOdd(from, save.name, ext);
  }

  /** An empty save restored where a file with an odd-case extension lies is afterwards reported to have a database. */
  lemma OddCaseInterferes(world: string, listing: seq<string>, manifest: Bytes)
    requires ValidWorldName(world) && !IsBackupStem(world) && ListsDir(map[], world, listing)
    ensures var save, tree: Tree := NoSave(world), map[Flat(world + ".DB") := ""];
      Describes(map[], world, save) && !Describes(Restored(tree, world, Backup(map[], save, listing, manifest)), world, save)
  {
    OddNameCounts(world);
    assert OddCase(map[Flat(world + ".DB") := ""], world, ".db");
    ScanAfterRestore(map[], map[Flat(world + ".DB") := ""], NoSave(world), listing, manifest);
  }

  lemma OddNameCounts(world: string)
    requires !IsBackupStem(world)
    ensures CountsAs(world + ".DB", world, ".db") && world + ".DB" != world + ".db"
  {
    ExtIs(world, "DB");
    LowerDB();
    assert world + ".DB" == world + "." + "DB";
    assert (world + ".DB")[|world| + 1] == 'D' && (world + ".db")[|world| + 1] == 'd';
  }

  lemma LowerDB()
    ensures ToLower("." + "DB") == ".db"
  {
  }
}
