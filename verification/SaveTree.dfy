/** Backing up and restoring a world's files, internal/backup/zip.go:56-346 and worlds.go:385-403. */
module SaveTree {
  import opened Ascii
  import opened WorldNames
  import opened Wrappers

  type Bytes = string

  /** A file of the save directory: at its root, in worlds_local, or in a directory of worlds_local. */
  datatype Place = Root(name: string) | Flat(name: string) | InDir(dir: string, name: string)

  type Tree = map<Place, Bytes>

  /** An archive entry; world is what its bytes name when read as a manifest, "" if nothing. */
  datatype Entry = Entry(name: string, bytes: Bytes, world: string)

  /** What a scan found for one world. */
  datatype Save = Save(name: string, legacyDB: bool, legacyFWL: bool, dir: bool, generation: nat, dirDB: bool, dirFWL: bool)

  datatype Error = TooLarge | NoWorld | BadWorldName

  datatype Result<T> = Ok(value: T) | Err(error: Error)

  const MAX_ARCHIVE_BYTES := 16 * 1024 * 1024 * 1024

  const ZIP_ORDER := [".fwl", ".db", ".fwl.old", ".db.old"]

  const WORLDS := "worlds_local/"

  const MANIFEST := "manifest.json"

  // ------------------------------------------------------------ places and entry names

  function ArcName(p: Place): string {
    match p
    case Root(name) => name
    case Flat(name) => WORLDS + name
    case InDir(dir, name) => WORLDS + dir + "/" + name
  }

  /** Where restoring world puts an entry, if anywhere: zip.go:263-309. */
  function TargetOf(world: string, name: string): Option<Place> {
    if HasSuffix(name, "/") then None
    else if name in LISTS then Some(Root(name))
    else if HasPrefix(name, WORLDS + world + "/") then DirTargetOf(world, Base(name))
    else if HasPrefix(name, WORLDS) then FlatTargetOf(world, Base(name))
    else None
  }

  /** zip.go:273-288 */
  function DirTargetOf(world: string, base: string): Option<Place> {
    if AllowedDirFile(base) then Some(InDir(world, base)) else None
  }

  /** zip.go:290-304 */
  function FlatTargetOf(world: string, base: string): Option<Place> {
    if '\\' !in base && AllowedFileSuffix(base) && HasPrefix(base, world + ".") then Some(Flat(base)) else None
  }

  function FlatAt(world: string, j: nat): Place
    requires j < |SUFFIXES|
  {
    Flat(world + SUFFIXES[j])
  }

  predicate IsFlatOf(world: string, p: Place, n: nat)
    requires n <= |SUFFIXES|
  {
    exists j: nat {:trigger FlatAt(world, j)} | j < n :: p == FlatAt(world, j)
  }

  lemma FlatSnoc(world: string, p: Place, n: nat)
    requires n < |SUFFIXES|
    ensures IsFlatOf(world, p, n + 1) <==> IsFlatOf(world, p, n) || p == FlatAt(world, n)
  {
  }

  /** The files removeWorldSave deletes: the flat ones and the world's directory. */
  predicate Owned(world: string, p: Place) {
    IsFlatOf(world, p, |SUFFIXES|) || (p.InDir? && p.dir == world)
  }

  // ------------------------------------------------------------ specification of backing up

  function LegacyPlaces(world: string): seq<Place> {
    seq(|ZIP_ORDER|, k requires 0 <= k < |ZIP_ORDER| => Flat(world + ZIP_ORDER[k]))
  }

  /** The files of a directory listing that a backup carries. */
  function DirPlaces(world: string, listing: seq<string>): seq<Place> {
    if listing == [] then []
    else
      var front, n := DirPlaces(world, listing[..|listing| - 1]), listing[|listing| - 1];
      if AllowedDirFile(n) then front + [InDir(world, n)] else front
  }

  function WorldPlaces(save: Save, listing: seq<string>): seq<Place> {
    LegacyPlaces(save.name) + if save.dir then DirPlaces(save.name, listing) else []
  }

  function ListPlaces(): seq<Place> {
    seq(|LISTS|, k requires 0 <= k < |LISTS| => Root(LISTS[k]))
  }

  /** Entries for those of the places that exist. */
  function Collected(tree: Tree, places: seq<Place>): seq<Entry> {
    if places == [] then []
    else
      var front, p := Collected(tree, places[..|places| - 1]), places[|places| - 1];
      if p in tree then front + [Entry(ArcName(p), tree[p], "")] else front
  }

  function Backup(tree: Tree, save: Save, listing: seq<string>, manifest: Bytes): seq<Entry> {
    Collected(tree, WorldPlaces(save, listing) + ListPlaces()) + [Entry(MANIFEST, manifest, save.name)]
  }

  // ------------------------------------------------------------ specification of restoring

  function Removed(tree: Tree, world: string): Tree {
    map p | p in tree && !Owned(world, p) :: tree[p]
  }

  function Laid(tree: Tree, world: string, zip: seq<Entry>): Tree {
    if zip == [] then tree
    else
      var before, e := Laid(tree, world, zip[..|zip| - 1]), zip[|zip| - 1];
      match TargetOf(world, e.name)
      case None => before
      case Some(p) => before[p := e.bytes]
  }

  /** Delete, then lay down. */
  function Restored(tree: Tree, world: string, zip: seq<Entry>): Tree {
    Laid(Removed(tree, world), world, zip)
  }

  function TotalSize(zip: seq<Entry>): nat {
    if zip == [] then 0 else TotalSize(zip[..|zip| - 1]) + |zip[|zip| - 1].bytes|
  }

  /** The first world a manifest names. */
  function ManifestWorld(zip: seq<Entry>): string {
    if zip == [] then ""
    else
      var front, e := ManifestWorld(zip[..|zip| - 1]), zip[|zip| - 1];
      if front == "" && e.name == MANIFEST then e.world else front
  }

  function Slash(s: string, i: nat): (j: nat)
    requires i <= |s|
    ensures i <= j <= |s|
    decreases |s| - i
  {
    if i < |s| && s[i] != '/' then Slash(s, i + 1) else i
  }

  /** zip.go:330-335: the directory of a worlds_local/<World>/_main.<N>.db2 entry */
  function DirWorldOf(name: string): string {
    if name == MANIFEST || !HasPrefix(name, WORLDS) then ""
    else
      var rest := name[|WORLDS|..];
      var i := Slash(rest, 0);
      if i == |rest| then ""
      else
        var m := MainFile(rest[i + 1..]);
        if m.Some? && m.value.ext == "db2" then rest[..i] else ""
  }

  /** zip.go:337-340: the stem of a worlds_local/<World>.db entry */
  function StemWorldOf(name: string): string {
    if name == MANIFEST || !HasPrefix(name, WORLDS) then ""
    else
      var rest := name[|WORLDS|..];
      if Slash(rest, 0) < |rest| || !HasSuffix(ToLower(rest), ".db") then "" else Stem(rest)
  }

  function FirstNamed(zip: seq<Entry>, of: string -> string): string {
    if zip == [] then ""
    else
      var front := FirstNamed(zip[..|zip| - 1], of);
      if front == "" then of(zip[|zip| - 1].name) else front
  }

  /** The world an archive is for: what its manifest says, else what its entries suggest. */
  function WorldName(zip: seq<Entry>): string {
    if ManifestWorld(zip) != "" then ManifestWorld(zip)
    else if FirstNamed(zip, StemWorldOf) != "" then FirstNamed(zip, StemWorldOf)
    else FirstNamed(zip, DirWorldOf)
  }

  function Outcome(zip: seq<Entry>): Result<string> {
    if TotalSize(zip) > MAX_ARCHIVE_BYTES then Err(TooLarge)
    else if WorldName(zip) == "" then Err(NoWorld)
    else if !ValidWorldName(WorldName(zip)) then Err(BadWorldName)
    else Ok(WorldName(zip))
  }

  // ------------------------------------------------------------ the code

  // zip.go:385-394
  method CheckArchiveBudget(zip: seq<Entry>) returns (ok: bool)
    ensures ok <==> TotalSize(zip) <= MAX_ARCHIVE_BYTES
  {
    var total := 0;
    for i := 0 to |zip|
      invariant total == TotalSize(zip[..i]) <= MAX_ARCHIVE_BYTES
    {
      assert zip[..i + 1][..i] == zip[..i];
      total := total + |zip[i].bytes|;
      if total > MAX_ARCHIVE_BYTES {
        TotalGrows(zip, i + 1);
        return false;
      }
    }
    assert zip[..|zip|] == zip;
    ok := true;
  }

  /** The size of an archive is that of its entries together. */
  lemma {:induction false} SizesAdd(a: seq<Entry>, b: seq<Entry>)
    ensures TotalSize(a + b) == TotalSize(a) + TotalSize(b)
    ensures |b| == 1 ==> TotalSize(b) == |b[0].bytes|
    decreases |b|
  {
    if b == [] {
      assert a + b == a;
    } else {
      SizesAdd(a, b[..|b| - 1]);
      assert (a + b)[..|a + b| - 1] == a + b[..|b| - 1];
    }
  }

  lemma {:induction false} TotalGrows(zip: seq<Entry>, i: nat)
    requires i <= |zip|
    ensures TotalSize(zip[..i]) <= TotalSize(zip)
  {
    if i < |zip| {
      TotalGrows(zip[..|zip| - 1], i);
      assert zip[..|zip| - 1][..i] == zip[..i];
    } else {
      assert zip[..i] == zip;
    }
  }

  // zip.go:317-346
  method ZipWorldName(zip: seq<Entry>) returns (world: string)
    ensures world == WorldName(zip)
  {
    var dbStem, dirWorld := "", "";
    for i := 0 to |zip|
      invariant ManifestWorld(zip[..i]) == ""
      invariant dbStem == FirstNamed(zip[..i], StemWorldOf) && dirWorld == FirstNamed(zip[..i], DirWorldOf)
    {
      assert zip[..i + 1][..i] == zip[..i];
      var e := zip[i];
      if e.name == MANIFEST {
        if e.world != "" {
          ManifestStays(zip, i + 1);
          return e.world;
        }
        continue;
      }
      if dirWorld == "" {
        dirWorld := DirWorldOf(e.name);
      }
      if dbStem == "" {
        dbStem := StemWorldOf(e.name);
      }
    }
    assert zip[..|zip|] == zip;
    world := if dbStem != "" then dbStem else dirWorld;
  }

  lemma {:induction false} ManifestStays(zip: seq<Entry>, i: nat)
    requires i <= |zip| && ManifestWorld(zip[..i]) != ""
    ensures ManifestWorld(zip) == ManifestWorld(zip[..i])
  {
    if i < |zip| {
      assert zip[..|zip| - 1][..i] == zip[..i];
      ManifestStays(zip[..|zip| - 1], i);
    } else {
      assert zip[..i] == zip;
    }
  }

  /** The save directory of an instance. */
  class SaveDir {
    var files: Tree

    constructor (initial: Tree)
      ensures files == initial
    {
      files := initial;
    }

    // zip.go:56-117
    method WriteBackupZip(save: Save, listing: seq<string>, manifest: Bytes) returns (zip: seq<Entry>)
      ensures zip == Backup(files, save, listing, manifest)
      ensures zip != [] && zip[|zip| - 1] == Entry("manifest.json", manifest, save.name)
    {
      var steps := WorldZipSteps(save, listing);
      steps := steps + ListPlaces();
      zip := Add(steps);
      zip := zip + [Entry(MANIFEST, manifest, save.name)];
    }

    // zip.go:64-87
    method Add(steps: seq<Place>) returns (zip: seq<Entry>)
      ensures zip == Collected(files, steps)
    {
      zip := [];
      for i := 0 to |steps|
        invariant zip == Collected(files, steps[..i])
      {
        assert steps[..i + 1][..i] == steps[..i];
        if steps[i] in files {
          zip := zip + [Entry(ArcName(steps[i]), files[steps[i]], "")];
        }
      }
      assert steps[..|steps|] == steps;
    }

    // worlds.go:385-403
    method RemoveWorldSave(world: string) returns (removed: bool)
      modifies this
      ensures files == Removed(old(files), world)
      ensures removed <==> exists p :: p in old(files) && Owned(world, p)
    {
      removed := false;
      for i := 0 to |SUFFIXES|
        invariant forall p :: p in files <==> p in old(files) && !IsFlatOf(world, p, i)
        invariant forall p | p in files :: files[p] == old(files)[p]
        invariant removed <==> exists p :: p in old(files) && IsFlatOf(world, p, i)
      {
        var p := FlatAt(world, i);
        forall q ensures IsFlatOf(world, q, i + 1) <==> IsFlatOf(world, q, i) || q == p {
          FlatSnoc(world, q, i);
        }
        if p in files {
          files := files - {p};
          removed := true;
        }
      }
      var dir := set p | p in files && p.InDir? && p.dir == world;
      ghost var flatGone := files;
      assert forall p :: p in dir <==> p in flatGone && p.InDir? && p.dir == world;
      if dir != {} {
        files := files - dir;
        removed := true;
      }
      assert forall p :: p in files <==> p in flatGone && !(p.InDir? && p.dir == world);
      assert files.Keys == Removed(old(files), world).Keys;
    }

    // zip.go:232-311
    method ExtractBackupZip(zip: seq<Entry>) returns (r: Result<string>)
      modifies this
      ensures r == Outcome(zip)
      ensures files == if r.Ok? then Restored(old(files), r.value, zip) else old(files)
      ensures r == Err(TooLarge) <==> TotalSize(zip) > 16 * 1024 * 1024 * 1024
      ensures r.Ok? ==> r.value != "" && r.value != "." && r.value != ".." && '/' !in r.value
      ensures r == Err(BadWorldName) ==> WorldName(zip) == "." || WorldName(zip) == ".." || '/' in WorldName(zip)
    {
      var fits := CheckArchiveBudget(zip);
      if !fits {
        return Err(TooLarge);
      }
      var world := ZipWorldName(zip);
      if world == "" {
        return Err(NoWorld);
      }
      if !ValidWorldName(world) {
        return Err(BadWorldName);
      }
      var _ := RemoveWorldSave(world);
      LayDown(world, zip);
      r := Ok(world);
    }

    // zip.go:258-309
    method LayDown(world: string, zip: seq<Entry>)
      modifies this
      ensures files == Laid(old(files), world, zip)
    {
      for i := 0 to |zip|
        invariant files == Laid(old(files), world, zip[..i])
      {
        assert zip[..i + 1][..i] == zip[..i];
        LayEntry(world, zip[i]);
      }
      assert zip[..|zip|] == zip;
    }

    // zip.go:259-308
    method LayEntry(world: string, e: Entry)
      modifies this
      ensures files == match TargetOf(world, e.name) { case None => old(files) case Some(p) => old(files)[p := e.bytes] }
    {
      var name := e.name;
      if HasSuffix(name, "/") {
        return;
      }
      if name in LISTS {
        files := files[Root(name) := e.bytes];
      } else if HasPrefix(name, WORLDS + world + "/") {
        var base := Base(name);
        if AllowedDirFile(base) {
          files := files[InDir(world, base) := e.bytes];
        }
      } else if HasPrefix(name, WORLDS) {
        var base := Base(name);
        if '\\' !in base && AllowedFileSuffix(base) && HasPrefix(base, world + ".") {
          files := files[Flat(base) := e.bytes];
        }
      }
    }
  }

  // zip.go:127-147
  method WorldZipSteps(save: Save, listing: seq<string>) returns (steps: seq<Place>)
    ensures steps == WorldPlaces(save, listing)
    ensures |steps| >= 4 && steps[0] == Flat(save.name + ".fwl") && steps[1] == Flat(save.name + ".db")
    ensures steps[2] == Flat(save.name + ".fwl.old") && steps[3] == Flat(save.name + ".db.old")
  {
    steps := LegacyPlaces(save.name);
    if save.dir {
      for i := 0 to |listing|
        invariant steps == LegacyPlaces(save.name) + DirPlaces(save.name, listing[..i])
      {
        assert listing[..i + 1][..i] == listing[..i];
        if AllowedDirFile(listing[i]) {
          steps := steps + [InDir(save.name, listing[i])];
        }
      }
      assert listing[..|listing|] == listing;
    }
  }
}
