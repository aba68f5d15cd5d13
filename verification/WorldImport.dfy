/** Staging a world archive and importing it, internal/backup/zip.go:417-556 and worlds.go:223-285. */
module WorldImport {
  import opened ArchiveNames
  import opened Ascii
  import opened BackupRoundTrip
  import opened Decimal
  import opened SaveTree
  import opened WorldNames
  import opened WorldScan
  import opened Wrappers

  datatype Staged = Pair(name: string, db: Bytes, fwl: Bytes) | Dir(name: string, files: map<string, Bytes>)

  datatype Refusal = NoWorldFound | ManyWorlds | MissingHalf | NotCommitted | OverBudget

  datatype Outcome = Ready(staged: Staged) | Refused(why: Refusal)

  datatype Halves = Halves(db: Option<Bytes>, fwl: Option<Bytes>)

  datatype Stage = Stage(pairs: map<string, Halves>, dirs: map<string, map<string, Bytes>>)

  // ------------------------------------------------------------ specification: staging

  function TrimWorlds(name: string): string {
    if HasPrefix(name, WORLDS) then name[|WORLDS|..] else name
  }

  function DropSlashes(s: string): (r: string)
    ensures |r| <= |s|
  {
    if s != "" && s[|s| - 1] == '/' then DropSlashes(s[..|s| - 1]) else s
  }

  /** filepath.Base of a directory part; "." and "/" are no world names. */
  function DirBase(s: string): string {
    Base(DropSlashes(s))
  }

  predicate SkippedBase(base: string) {
    '\\' in base || base == "" || base == "." || base == ".."
  }

  /** Where an entry belongs: a file of a world's directory, or one half of a pair. */
  datatype Role = InWorld(world: string, base: string) | Half(stem: string, isDB: bool) | Skipped

  /** A file of a directory: zip.go:464-470 */
  function DirRoleOf(dir: string, base: string): Role {
    var world := DirBase(dir);
    if !SkippedBase(base) && ValidWorldName(world) && AllowedDirFile(base) then InWorld(world, base) else Skipped
  }

  /** A flat file: zip.go:494-498 */
  function FlatRoleOf(base: string): Role {
    if SkippedBase(base) then Skipped
    else if LowerExt(base) == ".db" then Half(Stem(base), true)
    else if LowerExt(base) == ".fwl" then Half(Stem(base), false)
    else Skipped
  }

  function RoleIn(name: string): Role {
    var i := AfterLast(name, '/', |name|);
    if i > 0 then DirRoleOf(name[..i - 1], name[i..]) else FlatRoleOf(name)
  }

  function RoleOf(arc: string): Role {
    if HasSuffix(arc, "/") then Skipped else RoleIn(TrimWorlds(arc))
  }

  function StageAs(s: Stage, role: Role, bytes: Bytes): Stage {
    match role
    case Skipped => s
    case InWorld(world, base) =>
      var files := if world in s.dirs then s.dirs[world] else map[];
      s.(dirs := s.dirs[world := files[base := bytes]])
    case Half(stem, isDB) =>
      var h := if stem in s.pairs then s.pairs[stem] else Halves(None, None);
      s.(pairs := s.pairs[stem := if isDB then h.(db := Some(bytes)) else h.(fwl := Some(bytes))])
  }

  function StagedFrom(zip: seq<Entry>): Stage {
    if zip == [] then Stage(map[], map[]) else StageAs(StagedFrom(zip[..|zip| - 1]), RoleOf(zip[|zip| - 1].name), zip[|zip| - 1].bytes)
  }

  /** strconv.Atoi with its error ignored: the largest int beyond the range. */
  function Capped(digits: string): nat
    requires AllDigits(digits)
  {
    if Value(digits, 0) <= MAX_INT then Value(digits, 0) else MAX_INT
  }

  predicate MarksGen(name: string, g: nat, ext: string) {
    var m := MainFile(name);
    m.Some? && m.value.ext == ext && Capped(m.value.digits) == g
  }

  ghost predicate Marks(names: set<string>, g: nat, ext: string) {
    exists n :: n in names && MarksGen(n, g, ext)
  }

  /** Some generation has its data, its metadata and its marker. */
  ghost predicate Committed(names: set<string>) {
    exists g: nat :: Marks(names, g, "ok") && Marks(names, g, "db2") && Marks(names, g, "fwl2")
  }

  ghost predicate IsOutcome(s: Stage, r: Outcome) {
    if |s.pairs| + |s.dirs| == 0 then r == Refused(NoWorldFound)
    else if |s.pairs| + |s.dirs| > 1 then r == Refused(ManyWorlds)
    else if s.pairs != map[] then
      forall stem | stem in s.pairs ::
        var h := s.pairs[stem];
        r == if h.db.Some? && h.fwl.Some? then Ready(Pair(stem, h.db.value, h.fwl.value)) else Refused(MissingHalf)
    else
      forall world | world in s.dirs ::
        r == if Committed(s.dirs[world].Keys) then Ready(Dir(world, s.dirs[world])) else Refused(NotCommitted)
  }

  ghost predicate IsStaging(zip: seq<Entry>, r: Outcome) {
    if TotalSize(zip) > MAX_ARCHIVE_BYTES then r == Refused(OverBudget) else IsOutcome(StagedFrom(zip), r)
  }

  // ------------------------------------------------------------ the code: staging

  ghost predicate GenMarks(names: set<string>, g: nat, flags: Gen) {
    (flags.ok <==> Marks(names, g, "ok")) && (flags.db <==> Marks(names, g, "db2")) && (flags.fwl <==> Marks(names, g, "fwl2"))
  }

  ghost predicate MarkTable(names: set<string>, gens: map<nat, Gen>) {
    && (forall g | g in gens :: GenMarks(names, g, gens[g]))
    && (forall g: nat | g !in gens :: GenMarks(names, g, Gen(false, false, false)))
  }

  lemma MarksSnoc(names: set<string>, name: string, g: nat, ext: string)
    ensures Marks(names + {name}, g, ext) <==> Marks(names, g, ext) || MarksGen(name, g, ext)
  {
    if Marks(names, g, ext) {
      var n :| n in names && MarksGen(n, g, ext);
      assert n in names + {name};
    }
    if MarksGen(name, g, ext) {
      assert name in names + {name};
    }
  }

  // zip.go:479-491
  method MarkFile(ghost names: set<string>, gens: map<nat, Gen>, name: string) returns (marked: map<nat, Gen>)
    requires MarkTable(names, gens)
    ensures MarkTable(names + {name}, marked)
  {
    forall g: nat, ext ensures Marks(names + {name}, g, ext) <==> Marks(names, g, ext) || MarksGen(name, g, ext) {
      MarksSnoc(names, name, g, ext);
    }
    marked := gens;
    var m := MainFile(name);
    if m.Some? {
      var n := Capped(m.value.digits);
      var g := if n in gens then gens[n] else Gen(false, false, false);
      marked := gens[n := Marked(g, m.value.ext)];
    }
  }

  lemma TableDecides(names: set<string>, gens: map<nat, Gen>)
    requires MarkTable(names, gens)
    ensures Committed(names) <==> exists g :: g in gens && gens[g].ok && gens[g].db && gens[g].fwl
  {
    if Committed(names) {
      var g: nat :| Marks(names, g, "ok") && Marks(names, g, "db2") && Marks(names, g, "fwl2");
      assert g !in gens ==> GenMarks(names, g, Gen(false, false, false));
      assert g in gens && GenMarks(names, g, gens[g]);
    }
    if g :| g in gens && gens[g].ok && gens[g].db && gens[g].fwl {
      assert GenMarks(names, g, gens[g]);
    }
  }

  // zip.go:527-536
  method IsCommitted(names: set<string>) returns (ok: bool)
    ensures ok <==> Committed(names)
  {
    var gens: map<nat, Gen> := map[];
    var left := names;
    while left != {}
      invariant left <= names && MarkTable(names - left, gens)
    {
      var n :| n in left;
      gens := MarkFile(names - left, gens, n);
      assert names - (left - {n}) == names - left + {n};
      left := left - {n};
    }
    assert names - left == names;
    TableDecides(names, gens);
    ok := exists g :: g in gens && gens[g].ok && gens[g].db && gens[g].fwl;
  }

  // zip.go:417-540
  method StageZip(zip: seq<Entry>) returns (r: Outcome)
    ensures IsStaging(zip, r)
  {
    var fits := CheckArchiveBudget(zip);
    if !fits {
      return Refused(OverBudget);
    }
    var s := Stage(map[], map[]);
    for i := 0 to |zip|
      invariant s == StagedFrom(zip[..i])
    {
      assert zip[..i + 1][..i] == zip[..i];
      s := StageAs(s, RoleOf(zip[i].name), zip[i].bytes);
    }
    assert zip[..|zip|] == zip;
    r := PickOne(s);
  }

  // zip.go:515-540
  method PickOne(s: Stage) returns (r: Outcome)
    ensures IsOutcome(s, r)
  {
    if |s.pairs| + |s.dirs| == 0 {
      return Refused(NoWorldFound);
    }
    if |s.pairs| + |s.dirs| > 1 {
      return Refused(ManyWorlds);
    }
    if s.pairs != map[] {
      var stem :| stem in s.pairs;
      OnlyOne(s.pairs.Keys, stem);
      var h := s.pairs[stem];
      return if h.db.Some? && h.fwl.Some? then Ready(Pair(stem, h.db.value, h.fwl.value)) else Refused(MissingHalf);
    }
    var world :| world in s.dirs;
    OnlyOne(s.dirs.Keys, world);
    var ok := IsCommitted(s.dirs[world].Keys);
    r := if ok then Ready(Dir(world, s.dirs[world])) else Refused(NotCommitted);
  }

  lemma OnlyOne(s: set<string>, x: string)
    requires x in s && |s| == 1
    ensures s == {x}
  {
    assert s == {x} + (s - {x});
    assert |s - {x}| == 0;
  }

  // ------------------------------------------------------------ an exported world

  /** writeWorldZip: zip.go:544-556 */
  function Exported(tree: Tree, save: Save, listing: seq<string>): seq<Entry> {
    Collected(tree, WorldPlaces(save, listing))
  }

  lemma {:induction false} AfterLastNone(s: string, sep: char, hi: nat)
    requires hi <= |s| && sep !in s
    ensures AfterLast(s, sep, hi) == 0
  {
    if hi > 0 {
      AfterLastNone(s, sep, hi - 1);
    }
  }

  lemma TrimArc(n: string)
    ensures TrimWorlds(WORLDS + n) == n
  {
    PrefixOf(WORLDS, n);
    assert (WORLDS + n)[|WORLDS|..] == n;
  }

  /** What a flat file is to the import: a backslash in the name makes it nothing. */
  function RoleOfFlat(world: string, j: nat): Role {
    if HasBackslash(world) then Skipped
    else if j == 0 then Half(world, true)
    else if j == 1 then Half(world, false)
    else Skipped
  }

  lemma FlatHasNoSlash(world: string, j: nat)
    requires ValidWorldName(world) && j < |SUFFIXES|
    ensures '/' !in world + SUFFIXES[j] && world + SUFFIXES[j] != ""
  {
    var n := world + SUFFIXES[j];
    assert forall k | 0 <= k < |n| :: n[k] == if k < |world| then world[k] else SUFFIXES[j][k - |world|];
  }

  lemma FlatRole(world: string, j: nat)
    requires ValidWorldName(world) && j < |SUFFIXES|
    ensures RoleOf(ArcName(FlatAt(world, j))) == RoleOfFlat(world, j)
  {
    var n := world + SUFFIXES[j];
    FlatHasNoSlash(world, j);
    LastOf("", n);
    assert "" + n == n;
    ArcRole(n);
    AfterLastNone(n, '/', |n|);
    FlatStems(world, j);
  }

  lemma FlatKept(world: string, j: nat)
    requires ValidWorldName(world) && j < |SUFFIXES|
    ensures SkippedBase(world + SUFFIXES[j]) <==> HasBackslash(world)
  {
    var n := world + SUFFIXES[j];
    assert forall k | 0 <= k < |n| :: n[k] == if k < |world| then world[k] else SUFFIXES[j][k - |world|];
    if HasBackslash(world) {
      var k :| 0 <= k < |world| && world[k] == '\\';
      assert n[k] == '\\';
    }
  }

  lemma PlainStem(world: string, ext: string)
    requires ext in ["db", "fwl"]
    ensures LowerExt(world + "." + ext) == "." + ext && Stem(world + "." + ext) == world
  {
    ExtIs(world, ext);
    assert ToLower("." + ext) == "." + ext;
  }

  lemma FlatStems(world: string, j: nat)
    requires ValidWorldName(world) && j < |SUFFIXES|
    ensures FlatRoleOf(world + SUFFIXES[j]) == RoleOfFlat(world, j)
  {
    FlatKept(world, j);
    if HasBackslash(world) {
    } else if j == 0 {
      assert world + SUFFIXES[0] == world + "." + "db";
      PlainStem(world, "db");
    } else if j == 1 {
      assert world + SUFFIXES[1] == world + "." + "fwl";
      PlainStem(world, "fwl");
    } else if j == 2 {
      assert world + SUFFIXES[2] == world + ".db" + "." + "old";
      OldExt(world + ".db");
    } else {
      assert world + SUFFIXES[3] == world + ".fwl" + "." + "old";
      OldExt(world + ".fwl");
    }
  }

  lemma OldExt(stem: string)
    ensures LowerExt(stem + "." + "old") == ".old"
  {
    ExtIs(stem, "old");
    assert ToLower("." + "old") == ".old";
  }

  lemma PlainDirBase(world: string)
    requires ValidWorldName(world)
    ensures DirBase(world) == world
  {
    assert world[|world| - 1] in world;
    AfterLastNone(world, '/', |world|);
    assert world[0..] == world;
  }

  lemma AllowedIsKept(n: string)
    requires AllowedDirFile(n)
    ensures !SkippedBase(n) && '/' !in n
  {
    AllowedHasNoSlash(n);
    if MainFile(n).Some? {
      MainHasNoSlash(n);
    }
  }

  lemma DirRole(world: string, n: string)
    requires ValidWorldName(world) && AllowedDirFile(n)
    ensures RoleOf(ArcName(InDir(world, n))) == InWorld(world, n)
  {
    AllowedHasNoSlash(n);
    LastOf(world + "/", n);
    DirArc(world, n);
    ArcRole(world + "/" + n);
    BelowRole(world, n);
  }

  lemma DirArc(world: string, n: string)
    ensures ArcName(InDir(world, n)) == WORLDS + (world + "/" + n)
  {
  }

  /** Below worlds_local the role is that of the rest of the name. */
  lemma ArcRole(n: string)
    requires n != "" && !HasSuffix(n, "/")
    ensures RoleOf(WORLDS + n) == RoleIn(n)
  {
    TrimArc(n);
    assert (WORLDS + n)[|WORLDS + n| - 1] == n[|n| - 1];
  }

  lemma BelowRole(world: string, n: string)
    requires ValidWorldName(world) && AllowedDirFile(n)
    ensures RoleIn(world + "/" + n) == InWorld(world, n)
  {
    AllowedIsKept(n);
    BelowParts(world, n);
    PlainDirBase(world);
  }

  /** The last slash of such a name is the one between the directory and the file. */
  lemma BelowParts(world: string, n: string)
    requires '/' !in n
    ensures var name := world + "/" + n;
      AfterLast(name, '/', |name|) == |world| + 1 && name[|world| + 1..] == n && name[..|world|] == world
  {
    var name, i := world + "/" + n, |world| + 1;
    assert forall m | i <= m < |name| :: name[m] == n[m - i];
    AfterLastIs(name, '/', i, |name|);
  }

  // ------------------------------------------------------------ staging an export

  function HalfIn(tree: Tree, places: seq<Place>, p: Place): Option<Bytes> {
    if p in places && p in tree then Some(tree[p]) else None
  }

  function FilesIn(tree: Tree, places: seq<Place>, world: string): map<string, Bytes> {
    map p | p in places && p in tree && p.InDir? && p.dir == world :: p.name := tree[p]
  }

  function One<V>(key: string, value: V, there: bool): map<string, V> {
    if there then map[key := value] else map[]
  }

  function HalfOf(tree: Tree, world: string, places: seq<Place>, j: nat): Option<Bytes>
    requires j < |SUFFIXES|
  {
    if HasBackslash(world) then None else HalfIn(tree, places, FlatAt(world, j))
  }

  /** The stage the files of these places make. */
  function StageOf(tree: Tree, world: string, places: seq<Place>): Stage {
    var db, fwl := HalfOf(tree, world, places, 0), HalfOf(tree, world, places, 1);
    var files := FilesIn(tree, places, world);
    Stage(One(world, Halves(db, fwl), db.Some? || fwl.Some?), One(world, files, files != map[]))
  }

  predicate OfWorld(world: string, p: Place) {
    IsFlatOf(world, p, |SUFFIXES|) || (p.InDir? && p.dir == world && AllowedDirFile(p.name))
  }

  lemma FilesSnoc(tree: Tree, places: seq<Place>, world: string, p: Place)
    ensures FilesIn(tree, places + [p], world)
         == if p in tree && p.InDir? && p.dir == world then FilesIn(tree, places, world)[p.name := tree[p]]
            else FilesIn(tree, places, world)
  {
  }

  lemma HalfSnoc(tree: Tree, places: seq<Place>, p: Place, q: Place)
    ensures HalfIn(tree, places + [p], q) == if p == q && p in tree then Some(tree[p]) else HalfIn(tree, places, q)
  {
  }

  function RoleOfPlace(world: string, p: Place): Role {
    if p.InDir? then InWorld(p.dir, p.name)
    else if HasBackslash(world) then Skipped
    else if p == FlatAt(world, 0) then Half(world, true)
    else if p == FlatAt(world, 1) then Half(world, false)
    else Skipped
  }

  lemma FlatsDiffer(world: string)
    ensures FlatAt(world, 0) != FlatAt(world, 1)
    ensures forall i, j | 0 <= i < 2 <= j < |SUFFIXES| :: FlatAt(world, i) != FlatAt(world, j)
  {
  }

  lemma PlaceRole(world: string, p: Place)
    requires ValidWorldName(world) && OfWorld(world, p)
    ensures RoleOf(ArcName(p)) == RoleOfPlace(world, p)
  {
    if p.InDir? {
      DirRole(world, p.name);
    } else {
      var j: nat :| j < |SUFFIXES| && p == FlatAt(world, j);
      FlatRole(world, j);
      FlatsDiffer(world);
    }
  }

  lemma OneUpdated<V>(key: string, value: V, there: bool, v: V)
    ensures One(key, value, there)[key := v] == One(key, v, true)
  {
  }

  lemma DirSnoc(tree: Tree, world: string, places: seq<Place>, n: string)
    requires InDir(world, n) in tree
    ensures StageOf(tree, world, places + [InDir(world, n)])
         == StageAs(StageOf(tree, world, places), InWorld(world, n), tree[InDir(world, n)])
  {
    var p := InDir(world, n);
    HalfSnoc(tree, places, p, FlatAt(world, 0));
    HalfSnoc(tree, places, p, FlatAt(world, 1));
    FilesSnoc(tree, places, world, p);
    var files := FilesIn(tree, places, world);
    OneUpdated(world, files, files != map[], files[n := tree[p]]);
    assert n in files[n := tree[p]];
  }

  lemma FlatStageSnoc(tree: Tree, world: string, places: seq<Place>, p: Place)
    requires p.Flat? && p in tree
    ensures StageOf(tree, world, places + [p]) == StageAs(StageOf(tree, world, places), RoleOfPlace(world, p), tree[p])
  {
    HalfSnoc(tree, places, p, FlatAt(world, 0));
    HalfSnoc(tree, places, p, FlatAt(world, 1));
    FilesSnoc(tree, places, world, p);
    FlatsDiffer(world);
    var db, fwl := HalfOf(tree, world, places, 0), HalfOf(tree, world, places, 1);
    if HasBackslash(world) {
    } else if p == FlatAt(world, 0) {
      OneUpdated(world, Halves(db, fwl), db.Some? || fwl.Some?, Halves(Some(tree[p]), fwl));
    } else if p == FlatAt(world, 1) {
      OneUpdated(world, Halves(db, fwl), db.Some? || fwl.Some?, Halves(db, Some(tree[p])));
    }
  }

  lemma StageSnoc(tree: Tree, world: string, places: seq<Place>, p: Place)
    requires OfWorld(world, p)
    ensures StageOf(tree, world, places + [p])
         == if p in tree then StageAs(StageOf(tree, world, places), RoleOfPlace(world, p), tree[p])
            else StageOf(tree, world, places)
  {
    if p !in tree {
      HalfSnoc(tree, places, p, FlatAt(world, 0));
      HalfSnoc(tree, places, p, FlatAt(world, 1));
      FilesSnoc(tree, places, world, p);
    } else if p.InDir? {
      DirSnoc(tree, world, places, p.name);
    } else {
      FlatStageSnoc(tree, world, places, p);
    }
  }

  lemma StagedSnoc(zip: seq<Entry>, e: Entry)
    ensures StagedFrom(zip + [e]) == StageAs(StagedFrom(zip), RoleOf(e.name), e.bytes)
  {
    assert (zip + [e])[..|zip|] == zip;
  }

  lemma {:induction false} CollectedIsStaged(tree: Tree, world: string, places: seq<Place>)
    requires ValidWorldName(world) && forall p | p in places :: OfWorld(world, p)
    ensures StagedFrom(Collected(tree, places)) == StageOf(tree, world, places)
  {
    if places != [] {
      var front, p := places[..|places| - 1], places[|places| - 1];
      CollectedIsStaged(tree, world, front);
      StageSnoc(tree, world, front, p);
      assert places == front + [p];
      if p in tree {
        PlaceRole(world, p);
        StagedSnoc(Collected(tree, front), Entry(ArcName(p), tree[p], ""));
      }
    }
  }

  // ------------------------------------------------------------ when an export can be imported

  /** The files of a world's directory that an archive carries. */
  function AllowedFiles(tree: Tree, world: string): map<string, Bytes> {
    map p | p in tree && p.InDir? && p.dir == world && AllowedDirFile(p.name) :: p.name := tree[p]
  }

  lemma ExportedStage(tree: Tree, save: Save, listing: seq<string>)
    requires ValidWorldName(save.name) && ListsDir(tree, save.name, listing)
    ensures var w, s := save.name, StagedFrom(Exported(tree, save, listing));
      var db, fwl := HalfOf(tree, w, [FlatAt(w, 0)], 0), HalfOf(tree, w, [FlatAt(w, 1)], 1);
      && s.pairs == One(w, Halves(db, fwl), db.Some? || fwl.Some?)
      && s.dirs == One(w, AllowedFiles(tree, w), save.dir && AllowedFiles(tree, w) != map[])
  {
    var w, places := save.name, WorldPlaces(save, listing);
    forall p ensures p in places <==>
      IsFlatOf(w, p, |SUFFIXES|) || (save.dir && p.InDir? && p.dir == w && p.name in listing && AllowedDirFile(p.name))
    {
      LegacyPlacesAre(w, p);
      DirPlacesAre(w, listing, p);
    }
    CollectedIsStaged(tree, w, places);
    assert IsFlatOf(w, FlatAt(w, 0), |SUFFIXES|) && IsFlatOf(w, FlatAt(w, 1), |SUFFIXES|);
    FilesAre(tree, save, listing, places);
  }

  lemma FilesAre(tree: Tree, save: Save, listing: seq<string>, places: seq<Place>)
    requires ListsDir(tree, save.name, listing)
    requires forall p :: p in places && p.InDir? <==>
      save.dir && p.InDir? && p.dir == save.name && p.name in listing && AllowedDirFile(p.name)
    ensures FilesIn(tree, places, save.name) == if save.dir then AllowedFiles(tree, save.name) else map[]
  {
    var files := FilesIn(tree, places, save.name);
    var want := if save.dir then AllowedFiles(tree, save.name) else map[];
    forall n ensures n in files <==> n in want {
      assert InDir(save.name, n) in places && InDir(save.name, n) in tree <==> n in want;
    }
    assert files.Keys == want.Keys;
  }

  /** A world's directory counts only with a main file, so an archive of it is not empty. */
  lemma DirIsCarried(tree: Tree, save: Save)
    requires Describes(tree, save.name, save) && save.dir
    ensures AllowedFiles(tree, save.name) != map[]
  {
    var n :| n in NamesIn(tree, save.name) && MainFile(n).Some?;
    assert n in AllowedFiles(tree, save.name);
  }

  /** The exported world is staged as a pair, as a directory, or refused. */
  ghost predicate ExportBecomes(tree: Tree, save: Save, r: Outcome) {
    var w := save.name;
    var hasDB, hasFWL := FlatAt(w, 0) in tree && !HasBackslash(w), FlatAt(w, 1) in tree && !HasBackslash(w);
    var files := AllowedFiles(tree, w);
    r == if save.dir && (hasDB || hasFWL) then Refused(ManyWorlds)
         else if save.dir then if Committed(files.Keys) then Ready(Dir(w, files)) else Refused(NotCommitted)
         else if hasDB && hasFWL then Ready(Pair(w, tree[FlatAt(w, 0)], tree[FlatAt(w, 1)]))
         else if hasDB || hasFWL then Refused(MissingHalf)
         else Refused(NoWorldFound)
  }

  /**
   What the import makes of an export of the same program, case by case: it takes a world of one layout that is
   whole, and refuses a migrated world, which exports both layouts. A backslash in the name hides the flat files.
   */
  lemma ExportIsStaged(tree: Tree, save: Save, listing: seq<string>, r: Outcome)
    requires ValidWorldName(save.name) && ListsDir(tree, save.name, listing) && Describes(tree, save.name, save)
    requires TotalSize(Exported(tree, save, listing)) <= MAX_ARCHIVE_BYTES
    requires IsStaging(Exported(tree, save, listing), r)
    ensures ExportBecomes(tree, save, r)
  {
    ExportedStage(tree, save, listing);
    if save.dir {
      DirIsCarried(tree, save);
    }
    var s := StagedFrom(Exported(tree, save, listing));
    assert s.pairs != map[] ==> save.name in s.pairs && |s.pairs| == 1;
    assert s.dirs != map[] ==> save.name in s.dirs && |s.dirs| == 1;
  }

  // ------------------------------------------------------------ replacing a world

  function Put(staged: Staged): Tree {
    match staged
    case Pair(name, db, fwl) => map[Flat(name + ".db") := db, Flat(name + ".fwl") := fwl]
    case Dir(name, files) => PutSome(name, files, files.Keys)
  }

  function PutSome(name: string, files: map<string, Bytes>, some: set<string>): Tree
    requires some <= files.Keys
  {
    map n | n in some :: InDir(name, n) := files[n]
  }

  /** The tree once a staged world has replaced what a scan found. */
  function Imported(tree: Tree, staged: Staged, present: bool): Tree {
    (if present then Removed(tree, staged.name) else tree) + Put(staged)
  }

  datatype ImportResult = Done | Conflict | InvalidName

  // worlds.go:223-285
  method ImportWorld(dir: SaveDir, staged: Staged, found: Save, overwrite: bool) returns (r: ImportResult)
    requires Describes(dir.files, staged.name, found)
    modifies dir
    ensures r == if staged.name == "" || staged.name == "." || staged.name == ".." || '/' in staged.name then InvalidName
                 else if (found.dir || found.legacyDB || found.legacyFWL) && !overwrite then Conflict else Done
    ensures dir.files == if r == Done then Imported(old(dir.files), staged, Exists(found)) else old(dir.files)
  {
    if !ValidWorldName(staged.name) {
      return InvalidName;
    }
    if Exists(found) && !overwrite {
      return Conflict;
    }
    if Exists(found) {
      var _ := dir.RemoveWorldSave(staged.name);
    }
    match staged {
      case Dir(name, files) => MoveFiles(dir, name, files);
      case Pair(name, db, fwl) => MovePair(dir, name, db, fwl);
    }
    r := Done;
  }

  // worlds.go:265-270
  method MovePair(dir: SaveDir, name: string, db: Bytes, fwl: Bytes)
    modifies dir
    ensures dir.files == old(dir.files) + Put(Pair(name, db, fwl))
  {
    dir.files := dir.files[Flat(name + ".db") := db];
    dir.files := dir.files[Flat(name + ".fwl") := fwl];
  }

  // worlds.go:255-263
  method MoveFiles(dir: SaveDir, name: string, files: map<string, Bytes>)
    modifies dir
    ensures dir.files == old(dir.files) + Put(Dir(name, files))
  {
    ghost var base := dir.files;
    var left := files.Keys;
    while left != {}
      invariant left <= files.Keys
      invariant dir.files == base + PutSome(name, files, files.Keys - left)
    {
      var n :| n in left;
      PutNext(base, name, files, left, n);
      left := left - {n};
      dir.files := dir.files[InDir(name, n) := files[n]];
    }
    assert files.Keys - left == files.Keys;
  }

  lemma PutNext(base: Tree, name: string, files: map<string, Bytes>, left: set<string>, n: string)
    requires left <= files.Keys && n in left
    ensures (base + PutSome(name, files, files.Keys - left))[InDir(name, n) := files[n]]
         == base + PutSome(name, files, files.Keys - (left - {n}))
  {
    PutOne(name, files, files.Keys - left, n);
    assert files.Keys - (left - {n}) == files.Keys - left + {n};
    var put := PutSome(name, files, files.Keys - left);
    assert (base + put)[InDir(name, n) := files[n]] == base + put[InDir(name, n) := files[n]];
  }

  lemma PutOne(name: string, files: map<string, Bytes>, some: set<string>, n: string)
    requires some <= files.Keys && n in files
    ensures PutSome(name, files, some + {n}) == PutSome(name, files, some)[InDir(name, n) := files[n]]
  {
  }

  /** The part of a world an import is to carry over: no .old siblings, no unknown files. */
  predicate Imports(save: Save, p: Place) {
    || p == FlatAt(save.name, 0) || p == FlatAt(save.name, 1)
    || (save.dir && p.InDir? && p.dir == save.name && AllowedDirFile(p.name))
  }

  /** The part it does carry over. */
  predicate Arrives(save: Save, p: Place) {
    Imports(save, p) && !(p.Flat? && HasBackslash(save.name))
  }

  /** What importing leaves: what arrives; the rest of the world goes only if a scan had found it. */
  ghost predicate IsReplaced(after: Tree, tree: Tree, from: Tree, save: Save, present: bool) {
    forall p {:trigger p in after} ::
      if Arrives(save, p) && p in from then p in after && after[p] == from[p]
      else if present && Owned(save.name, p) then p !in after
      else (p in after <==> p in tree) && (p in after ==> after[p] == tree[p])
  }

  /** Every file that was to be carried over is there. */
  ghost predicate IsWhole(after: Tree, from: Tree, save: Save) {
    forall p | p in from && Imports(save, p) :: p in after && after[p] == from[p]
  }

  /** Exporting a world that can be imported and importing it into any tree. */
  lemma ExportImportLeaves(from: Tree, save: Save, listing: seq<string>, r: Outcome, tree: Tree, present: bool)
    requires ValidWorldName(save.name) && ListsDir(from, save.name, listing) && Describes(from, save.name, save)
    requires TotalSize(Exported(from, save, listing)) <= MAX_ARCHIVE_BYTES
    requires IsStaging(Exported(from, save, listing), r) && r.Ready?
    ensures r.staged.name == save.name
    ensures IsReplaced(Imported(tree, r.staged, present), tree, from, save, present)
  {
    ExportIsStaged(from, save, listing, r);
    forall p
      ensures p in Put(r.staged) <==> Arrives(save, p) && p in from
      ensures p in Put(r.staged) ==> Put(r.staged)[p] == from[p]
    {
      if r.staged.Dir? {
        DirIsImported(from, save, r, p);
      } else {
        PairIsImported(from, save, r, p);
      }
    }
  }

  /** The import is whole, into every tree, exactly when there was no flat file to lose to a backslash in the name. */
  lemma ExportImportRoundTrip(from: Tree, save: Save, listing: seq<string>, r: Outcome)
    requires ValidWorldName(save.name) && ListsDir(from, save.name, listing) && Describes(from, save.name, save)
    requires TotalSize(Exported(from, save, listing)) <= MAX_ARCHIVE_BYTES
    requires IsStaging(Exported(from, save, listing), r) && r.Ready?
    ensures (forall tree, present :: IsWhole(Imported(tree, r.staged, present), from, save))
       <==> !HasBackslash(save.name) || (FlatAt(save.name, 0) !in from && FlatAt(save.name, 1) !in from)
  {
    forall tree, present ensures IsReplaced(Imported(tree, r.staged, present), tree, from, save, present) {
      ExportImportLeaves(from, save, listing, r, tree, present);
    }
    if HasBackslash(save.name) && (FlatAt(save.name, 0) in from || FlatAt(save.name, 1) in from) {
      FlatFilesAreLost(Imported(map[], r.staged, false), from, save);
    } else {
      forall tree, present ensures IsWhole(Imported(tree, r.staged, present), from, save) {
        AllArrives(Imported(tree, r.staged, present), tree, from, save, present);
      }
    }
  }

  lemma AllArrives(after: Tree, tree: Tree, from: Tree, save: Save, present: bool)
    requires IsReplaced(after, tree, from, save, present)
    requires !HasBackslash(save.name) || (FlatAt(save.name, 0) !in from && FlatAt(save.name, 1) !in from)
    ensures IsWhole(after, from, save)
  {
    forall p | p in from && Imports(save, p) ensures p in after && after[p] == from[p] {
      assert Arrives(save, p);
    }
  }

  lemma FlatFilesAreLost(after: Tree, from: Tree, save: Save)
    requires IsReplaced(after, map[], from, save, false) && HasBackslash(save.name)
    requires FlatAt(save.name, 0) in from || FlatAt(save.name, 1) in from
    ensures !IsWhole(after, from, save)
  {
    var p := if FlatAt(save.name, 0) in from then FlatAt(save.name, 0) else FlatAt(save.name, 1);
    assert Imports(save, p) && !Arrives(save, p);
    assert p !in after;
  }

  lemma DirIsStaged(from: Tree, save: Save, r: Outcome)
    requires ExportBecomes(from, save, r) && r.Ready? && r.staged.Dir?
    ensures r.staged == Dir(save.name, AllowedFiles(from, save.name))
    ensures save.dir && (HasBackslash(save.name) || (FlatAt(save.name, 0) !in from && FlatAt(save.name, 1) !in from))
  {
  }

  lemma DirIsImported(from: Tree, save: Save, r: Outcome, p: Place)
    requires ExportBecomes(from, save, r) && r.Ready? && r.staged.Dir?
    ensures p in Put(r.staged) <==> Arrives(save, p) && p in from
    ensures p in Put(r.staged) ==> Put(r.staged)[p] == from[p]
  {
    DirIsStaged(from, save, r);
    DirIsPut(from, save.name, p);
  }

  lemma DirIsPut(from: Tree, world: string, p: Place)
    ensures var put := Put(Dir(world, AllowedFiles(from, world)));
      && (p in put <==> p.InDir? && p.dir == world && AllowedDirFile(p.name) && p in from)
      && (p in put ==> put[p] == from[p])
  {
    var files := AllowedFiles(from, world);
    PutHas(world, files, p);
    if p.InDir? && p.dir == world {
      AllowedHas(from, world, p.name);
    }
  }

  lemma PutHas(world: string, files: map<string, Bytes>, p: Place)
    ensures p in PutSome(world, files, files.Keys) <==> p.InDir? && p.dir == world && p.name in files
    ensures p in PutSome(world, files, files.Keys) ==> PutSome(world, files, files.Keys)[p] == files[p.name]
  {
    if p.InDir? && p.dir == world && p.name in files {
      assert p == InDir(world, p.name);
    }
  }

  lemma AllowedHas(from: Tree, world: string, n: string)
    ensures n in AllowedFiles(from, world) <==> InDir(world, n) in from && AllowedDirFile(n)
    ensures n in AllowedFiles(from, world) ==> AllowedFiles(from, world)[n] == from[InDir(world, n)]
  {
  }

  lemma PairIsImported(from: Tree, save: Save, r: Outcome, p: Place)
    requires ExportBecomes(from, save, r) && r.Ready? && r.staged.Pair?
    ensures p in Put(r.staged) <==> Arrives(save, p) && p in from
    ensures p in Put(r.staged) ==> Put(r.staged)[p] == from[p]
  {
    FlatsDiffer(save.name);
    assert FlatAt(save.name, 0) == Flat(save.name + ".db") && FlatAt(save.name, 1) == Flat(save.name + ".fwl");
  }
}
