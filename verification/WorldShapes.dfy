/** What scans, archives and imports go by, told by the shapes of file names: worldfiles.go:58-208 and zip.go:317-536. */
module WorldShapes {
  import opened ArchiveNames
  import opened Ascii
  import opened Decimal
  import opened DecimalText
  import opened SaveShapes
  import opened SaveTree
  import opened WorldImport
  import opened WorldNames
  import opened WorldScan
  import opened Wrappers

  // ------------------------------------------------------------ numbered files

  /** n is the file of number g with this extension, with zeros in front of the number or not. */
  ghost predicate IsNumbered(n: string, g: nat, ext: string) {
    exists z :: n == "_main." + (Zeros(z) + Printed(g)) + ("." + ext)
  }

  predicate IsMainExt(ext: string) {
    ext == "fwl2" || ext == "db2" || ext == "chunks" || ext == "ok"
  }

  /** A main file is one with a number. */
  lemma MainIsNumbered(n: string) returns (g: nat)
    requires MainFile(n).Some?
    ensures IsNumbered(n, g, MainFile(n).value.ext) && IsMainExt(MainFile(n).value.ext)
    ensures Value(MainFile(n).value.digits, 0) == g
  {
    MainHasShape(n);
    var d, ext := MainFile(n).value.digits, MainFile(n).value.ext;
    var z;
    z, g := DigitsArePrinted(d);
    PrintedWithTail(z, g, "");
    assert n == "_main." + d + ("." + ext);
  }

  lemma NumberedIsMain(n: string, g: nat, ext: string)
    requires IsNumbered(n, g, ext) && IsMainExt(ext)
    ensures MainFile(n).Some? && MainFile(n).value.ext == ext && Value(MainFile(n).value.digits, 0) == g
  {
    var z :| n == "_main." + (Zeros(z) + Printed(g)) + ("." + ext);
    PrintedIs(g);
    PrintedWithTail(z, g, "");
    var d, e := Zeros(z) + Printed(g), "." + ext;
    assert e[1..] == ext;
    assert e == ".fwl2" || e == ".db2" || e == ".chunks" || e == ".ok";
    assert forall c | c in d :: '0' <= c <= '9';
    MainShape(d, e);
  }

  /** A scan reads the number as it is, and no number beyond an int. */
  lemma MainOfShape(n: string, g: nat, ext: string)
    ensures IsMainOf(n, g, ext) <==> g <= 0x7FFF_FFFF_FFFF_FFFF && IsMainExt(ext) && IsNumbered(n, g, ext)
  {
    if IsMainOf(n, g, ext) {
      var h := MainIsNumbered(n);
    }
    if IsMainExt(ext) && IsNumbered(n, g, ext) {
      NumberedIsMain(n, g, ext);
    }
  }

  /** An import takes a number beyond an int for the largest one. */
  lemma MarksShape(n: string, g: nat, ext: string)
    ensures MarksGen(n, g, ext) <==>
      IsMainExt(ext) && exists h: nat :: IsNumbered(n, h, ext) && g == if h <= 0x7FFF_FFFF_FFFF_FFFF then h else 0x7FFF_FFFF_FFFF_FFFF
  {
    if MarksGen(n, g, ext) {
      var h := MainIsNumbered(n);
    }
    if IsMainExt(ext) {
      forall h: nat | IsNumbered(n, h, ext)
        ensures MarksGen(n, g, ext) <==> g == if h <= 0x7FFF_FFFF_FFFF_FFFF then h else 0x7FFF_FFFF_FFFF_FFFF
      {
        NumberedIsMain(n, h, ext);
      }
    }
  }

  /** Some file has this extension and this number, where numbers beyond an int count as the largest one. */
  ghost predicate HasNumber(names: set<string>, g: nat, ext: string) {
    exists n, h: nat :: n in names && IsNumbered(n, h, ext) && g == if h <= 0x7FFF_FFFF_FFFF_FFFF then h else 0x7FFF_FFFF_FFFF_FFFF
  }

  lemma MarksAreNumbers(names: set<string>, g: nat, ext: string)
    requires IsMainExt(ext)
    ensures Marks(names, g, ext) <==> HasNumber(names, g, ext)
  {
    forall n ensures MarksGen(n, g, ext) <==>
      exists h: nat :: IsNumbered(n, h, ext) && g == if h <= 0x7FFF_FFFF_FFFF_FFFF then h else 0x7FFF_FFFF_FFFF_FFFF
    {
      MarksShape(n, g, ext);
    }
  }

  ghost predicate HasAllThree(names: set<string>, g: nat) {
    HasNumber(names, g, "ok") && HasNumber(names, g, "db2") && HasNumber(names, g, "fwl2")
  }

  ghost predicate MarksAllThree(names: set<string>, g: nat) {
    Marks(names, g, "ok") && Marks(names, g, "db2") && Marks(names, g, "fwl2")
  }

  lemma AllThree(names: set<string>, g: nat)
    ensures MarksAllThree(names, g) <==> HasAllThree(names, g)
  {
    MarksAreNumbers(names, g, "ok");
    MarksAreNumbers(names, g, "db2");
    MarksAreNumbers(names, g, "fwl2");
  }

  lemma CommittedIs(names: set<string>)
    ensures Committed(names) <==> exists g: nat :: MarksAllThree(names, g)
  {
    if Committed(names) {
      var g: nat :| Marks(names, g, "ok") && Marks(names, g, "db2") && Marks(names, g, "fwl2");
      assert MarksAllThree(names, g);
    }
  }

  /** An import asks for a number with all three files. */
  lemma CommittedByShape(names: set<string>)
    ensures Committed(names) <==> exists g: nat :: HasAllThree(names, g)
  {
    CommittedIs(names);
    if g: nat :| MarksAllThree(names, g) {
      AllThree(names, g);
    }
    if g: nat :| HasAllThree(names, g) {
      AllThree(names, g);
    }
  }

  // ------------------------------------------------------------ flat files

  lemma {:induction false} AfterLastFinds(s: string, sep: char, hi: nat)
    requires hi <= |s|
    ensures var j := AfterLast(s, sep, hi); (forall m | j <= m < hi :: s[m] != sep) && (j > 0 ==> s[j - 1] == sep)
  {
    if hi > 0 && s[hi - 1] != sep {
      AfterLastFinds(s, sep, hi - 1);
    }
  }

  /** The world and an extension in any letter case. */
  ghost predicate IsHalf(n: string, world: string, ext: string) {
    exists e :: n == world + "." + e && '.' !in e && '/' !in e && ToLower("." + e) == ext
  }

  lemma HalfShape(n: string, world: string, ext: string)
    requires ext != ""
    ensures LowerExt(n) == ext && Stem(n) == world <==> IsHalf(n, world, ext)
  {
    if LowerExt(n) == ext && Stem(n) == world {
      var dot := AfterLast(n, '.', |n|);
      AfterLastFinds(n, '.', |n|);
      assert n[|n|..] == "";
      assert dot > 0 && '/' !in n[dot..];
      assert n[dot - 1..] == "." + n[dot..] && n == world + "." + n[dot..];
    }
    if e :| n == world + "." + e && '.' !in e && '/' !in e && ToLower("." + e) == ext {
      ExtIs(world, e);
    }
  }

  lemma {:induction false} ContainsShape(s: string, part: string)
    ensures Contains(s, part) <==> exists a, b :: s == a + part + b
    decreases |s|
  {
    if part <= s {
      assert s == "" + part + s[|part|..];
    } else {
      forall a, b | s == a + part + b ensures s != "" && s[1..] == a[1..] + part + b {
        PartIsLater(s, a, part, b);
      }
      if s != "" {
        ContainsShape(s[1..], part);
        if a, b :| s[1..] == a + part + b {
          assert s == ([s[0]] + a) + part + b;
        }
        if a, b :| s == a + part + b {
          assert s[1..] == a[1..] + part + b;
        }
      }
    }
  }

  lemma PartIsLater(s: string, a: string, part: string, b: string)
    requires s == a + part + b && !(part <= s)
    ensures a != "" && s[1..] == a[1..] + part + b
  {
    assert a == "" ==> s == part + b;
  }

  /** Valheim's own rolling copies have one of three marks in their names. */
  lemma BackupShape(s: string)
    ensures IsBackupStem(s) <==>
      || (exists a, b :: s == a + "_backup_auto-" + b) || (exists a, b :: s == a + "_backup_cloud-" + b)
      || (exists a, b :: s == a + "_backup_restore-" + b)
  {
    ContainsShape(s, "_backup_auto-");
    ContainsShape(s, "_backup_cloud-");
    ContainsShape(s, "_backup_restore-");
  }

  // ------------------------------------------------------------ what a scan reports

  /** The world's directory has the file of number g. */
  ghost predicate HasFile(tree: Tree, world: string, g: nat, ext: string) {
    exists n {:trigger InDir(world, n)} :: InDir(world, n) in tree && IsNumbered(n, g, ext)
  }

  ghost predicate HasHalf(tree: Tree, world: string, ext: string) {
    exists n {:trigger Flat(n)} :: Flat(n) in tree && IsHalf(n, world, ext)
  }

  lemma FileShape(tree: Tree, world: string, g: nat, ext: string)
    requires g <= 0x7FFF_FFFF_FFFF_FFFF && IsMainExt(ext)
    ensures Has(NamesIn(tree, world), g, ext) <==> HasFile(tree, world, g, ext)
  {
    forall n ensures IsMainOf(n, g, ext) <==> IsNumbered(n, g, ext) {
      MainOfShape(n, g, ext);
    }
    if Has(NamesIn(tree, world), g, ext) {
      var n :| n in NamesIn(tree, world) && IsMainOf(n, g, ext);
      assert InDir(world, n) in tree;
    }
    if HasFile(tree, world, g, ext) {
      var n :| InDir(world, n) in tree && IsNumbered(n, g, ext);
      assert n in NamesIn(tree, world);
    }
  }

  /** The generation is the highest number above 0 with a commit marker, 0 if there is none; the flags are of its files. */
  lemma GenerationByShape(tree: Tree, world: string, save: Save)
    requires Describes(tree, world, save) && save.dir
    ensures save.generation > 0 ==> HasFile(tree, world, save.generation, "ok")
    ensures forall g: nat | 0 < g <= 0x7FFF_FFFF_FFFF_FFFF && HasFile(tree, world, g, "ok") :: g <= save.generation
    ensures save.dirDB <==> save.generation > 0 && HasFile(tree, world, save.generation, "db2")
    ensures save.dirFWL <==> save.generation > 0 && HasFile(tree, world, save.generation, "fwl2")
  {
    var names, top := NamesIn(tree, world), save.generation;
    forall g: nat | 0 < g <= 0x7FFF_FFFF_FFFF_FFFF && HasFile(tree, world, g, "ok") ensures g <= top {
      FileShape(tree, world, g, "ok");
    }
    if top > 0 {
      NumberIsInt(names, top, "ok");
      FileShape(tree, world, top, "ok");
      FileShape(tree, world, top, "db2");
      FileShape(tree, world, top, "fwl2");
    }
  }

  lemma NumberIsInt(names: set<string>, g: nat, ext: string)
    requires Has(names, g, ext)
    ensures g <= 0x7FFF_FFFF_FFFF_FFFF
  {
    var n :| n in names && IsMainOf(n, g, ext);
    MainOfShape(n, g, ext);
  }

  /** A world has a directory layout when its directory holds a main file, and a legacy half under any case of the extension. */
  lemma LayoutsByShape(tree: Tree, world: string, save: Save)
    requires Describes(tree, world, save)
    ensures save.dir <==>
      !IsBackupStem(world) && exists n {:trigger InDir(world, n)} :: InDir(world, n) in tree && IsMainName(n)
    ensures save.legacyDB <==> !IsBackupStem(world) && HasHalf(tree, world, ".db")
    ensures save.legacyFWL <==> !IsBackupStem(world) && HasHalf(tree, world, ".fwl")
  {
    forall n ensures LowerExt(n) == ".db" && Stem(n) == world <==> IsHalf(n, world, ".db") {
      HalfShape(n, world, ".db");
    }
    forall n ensures LowerExt(n) == ".fwl" && Stem(n) == world <==> IsHalf(n, world, ".fwl") {
      HalfShape(n, world, ".fwl");
    }
    forall n ensures n in NamesIn(tree, world) <==> InDir(world, n) in tree {
    }
    forall n ensures MainFile(n).Some? <==> IsMainName(n) {
      MainNameShape(n);
    }
  }

  lemma MainNameShape(n: string)
    ensures MainFile(n).Some? <==> IsMainName(n)
  {
    if MainFile(n).Some? {
      MainHasShape(n);
    }
    if d, e :| IsMainWith(n, d, e) {
      MainShape(d, e);
    }
  }

  // ------------------------------------------------------------ which world an archive is for

  /** The manifest names the world: the first one that names any. */
  lemma {:induction false} ManifestNames(zip: seq<Entry>, w: string)
    requires w != ""
    ensures ManifestWorld(zip) == w <==>
      exists i: nat {:trigger zip[i]} :: i < |zip| && zip[i].name == "manifest.json" && zip[i].world == w
        && forall j | 0 <= j < i && zip[j].name == "manifest.json" :: zip[j].world == ""
  {
    if zip != [] {
      var n := |zip| - 1;
      ManifestNames(zip[..n], w);
      NoManifest(zip[..n]);
      assert forall k | 0 <= k < n :: zip[..n][k] == zip[k];
    }
  }

  lemma {:induction false} NoManifest(zip: seq<Entry>)
    ensures ManifestWorld(zip) == "" <==> forall j | 0 <= j < |zip| && zip[j].name == "manifest.json" :: zip[j].world == ""
  {
    if zip != [] {
      var n := |zip| - 1;
      NoManifest(zip[..n]);
      assert forall k | 0 <= k < n :: zip[..n][k] == zip[k];
    }
  }

  /** A flat database file names its world, in any case of the extension. */
  lemma StemNames(world: string, e: string)
    requires '/' !in world && '/' !in e && '.' !in e && ToLower("." + e) == ".db"
    ensures StemWorldOf("worlds_local/" + (world + "." + e)) == world
  {
    var rest := world + "." + e;
    NoSlash(rest, 0);
    ExtIs(world, e);
    LowerEnds(world, "." + e);
    assert rest == world + ("." + e);
    FlatStem(rest);
  }

  lemma FlatStem(rest: string)
    requires Slash(rest, 0) == |rest| && HasSuffix(ToLower(rest), ".db")
    ensures StemWorldOf("worlds_local/" + rest) == Stem(rest)
  {
    var name := WORLDS + rest;
    assert name[|WORLDS|..] == rest && name[0] == 'w' && MANIFEST[0] == 'm';
  }

  lemma LowerEnds(a: string, b: string)
    ensures HasSuffix(ToLower(a + b), ToLower(b))
  {
    var t := ToLower(a + b);
    assert t[|a|..] == ToLower(b);
  }

  lemma {:induction false} NoSlash(s: string, i: nat)
    requires i <= |s| && '/' !in s
    ensures Slash(s, i) == |s|
    decreases |s| - i
  {
    if i < |s| {
      NoSlash(s, i + 1);
    }
  }

  lemma {:induction false} SlashAt(a: string, b: string, i: nat)
    requires i <= |a| && '/' !in a
    ensures Slash(a + "/" + b, i) == |a|
    decreases |a| - i
  {
    if i < |a| {
      SlashAt(a, b, i + 1);
    }
  }

  /** A database of a directory names its world. */
  lemma DirNames(world: string, d: string)
    requires '/' !in world && d != "" && forall c | c in d :: '0' <= c <= '9'
    ensures DirWorldOf("worlds_local/" + (world + "/" + ("_main." + d + ".db2"))) == world
  {
    var base := "_main." + d + ".db2";
    var rest := world + "/" + base;
    var name := WORLDS + rest;
    assert name[|WORLDS|..] == rest && name[0] == 'w';
    SlashAt(world, base, 0);
    assert rest[..|world|] == world && rest[|world| + 1..] == base;
    MainShape(d, ".db2");
  }

  /** Entry i is the first of which something can be told. */
  ghost predicate IsFirstNamed(zip: seq<Entry>, of: string -> string, i: nat, w: string) {
    i < |zip| && of(zip[i].name) == w != "" && forall j | 0 <= j < i :: of(zip[j].name) == ""
  }

  lemma {:induction false} FirstNamedIs(zip: seq<Entry>, of: string -> string)
    ensures FirstNamed(zip, of) == "" <==> forall j | 0 <= j < |zip| :: of(zip[j].name) == ""
    ensures FirstNamed(zip, of) != "" ==> exists i: nat :: IsFirstNamed(zip, of, i, FirstNamed(zip, of))
  {
    if zip != [] {
      var n := |zip| - 1;
      var front := zip[..n];
      FirstNamedIs(front, of);
      assert forall j | 0 <= j < n :: front[j] == zip[j];
      if FirstNamed(front, of) != "" {
        var i: nat :| IsFirstNamed(front, of, i, FirstNamed(front, of));
        assert IsFirstNamed(zip, of, i, FirstNamed(zip, of));
      } else if of(zip[n].name) != "" {
        assert IsFirstNamed(zip, of, n, FirstNamed(zip, of));
      }
    }
  }

  /** Without a manifest the first flat database names the world, and if there is none the first database of a directory. */
  lemma NamedByEntries(zip: seq<Entry>)
    requires forall j | 0 <= j < |zip| && zip[j].name == "manifest.json" :: zip[j].world == ""
    ensures WorldName(zip) != "" ==>
      || (exists i: nat :: IsFirstNamed(zip, StemWorldOf, i, WorldName(zip)))
      || ((forall j | 0 <= j < |zip| :: StemWorldOf(zip[j].name) == "")
          && exists i: nat :: IsFirstNamed(zip, DirWorldOf, i, WorldName(zip)))
    ensures WorldName(zip) == "" ==> forall j | 0 <= j < |zip| :: StemWorldOf(zip[j].name) == "" && DirWorldOf(zip[j].name) == ""
  {
    NoManifest(zip);
    FirstNamedIs(zip, StemWorldOf);
    FirstNamedIs(zip, DirWorldOf);
  }

  /** Only a flat database names a world by its stem. */
  lemma StemOnly(name: string) returns (e: string)
    requires StemWorldOf(name) != ""
    ensures name == "worlds_local/" + StemWorldOf(name) + "." + e && '/' !in StemWorldOf(name) && '/' !in e
    ensures '.' !in e && ToLower("." + e) == ".db"
  {
    var rest := name[|WORLDS|..];
    assert name == WORLDS + rest;
    SlashFinds(rest, 0);
    var dot := AfterLast(rest, '.', |rest|);
    AfterLastFinds(rest, '.', |rest|);
    LowerTail(rest);
    assert dot == |rest| - 2;
    e := rest[dot..];
    StemIs(rest, dot);
  }

  lemma StemIs(rest: string, dot: nat)
    requires dot == AfterLast(rest, '.', |rest|) && 0 < dot && '/' !in rest && rest[dot - 1] == '.'
    ensures Stem(rest) == rest[..dot - 1] && rest == rest[..dot - 1] + "." + rest[dot..]
    ensures '/' !in rest[..dot - 1] && '/' !in rest[dot..]
  {
    NoneInPart(rest, 0, dot - 1);
    NoneInPart(rest, dot, |rest|);
    assert rest[0..dot - 1] == rest[..dot - 1] && rest[dot..|rest|] == rest[dot..];
    OneBetween(rest, dot);
  }

  lemma NoneInPart(s: string, i: nat, j: nat)
    requires '/' !in s && i <= j <= |s|
    ensures '/' !in s[i..j]
  {
    forall k | 0 <= k < j - i ensures s[i..j][k] != '/' {
      assert s[i..j][k] == s[i + k];
    }
  }

  lemma OneBetween(rest: string, dot: nat)
    requires 0 < dot <= |rest| && rest[dot - 1] == '.'
    ensures rest == rest[..dot - 1] + "." + rest[dot..]
  {
  }

  lemma {:induction false} SlashFinds(s: string, i: nat)
    requires i <= |s| && Slash(s, i) == |s|
    ensures '/' !in s[i..]
    decreases |s| - i
  {
    if i < |s| {
      SlashFinds(s, i + 1);
      assert s[i..] == [s[i]] + s[i + 1..];
    }
  }

  /** A text whose lower case ends in .db ends in a dot and two letters. */
  lemma LowerTail(s: string)
    requires HasSuffix(ToLower(s), ".db")
    ensures |s| >= 3 && s[|s| - 3] == '.' && ToLower("." + s[|s| - 2..]) == ".db"
    ensures s[|s| - 2] != '.' && s[|s| - 1] != '.'
  {
    var t, n := ToLower(s), |s|;
    assert t[n - 3..][0] == '.' && t[n - 3..][1] == 'd' && t[n - 3..][2] == 'b';
    assert t[n - 3] == Lower(s[n - 3]) && t[n - 2] == Lower(s[n - 2]) && t[n - 1] == Lower(s[n - 1]);
    assert ToLower("." + s[n - 2..]) == ['.', Lower(s[n - 2]), Lower(s[n - 1])];
  }

  /** And only a database of a directory names it by its directory. */
  lemma DirOnly(name: string) returns (d: string)
    requires DirWorldOf(name) != ""
    ensures name == "worlds_local/" + DirWorldOf(name) + "/" + ("_main." + d + ".db2") && '/' !in DirWorldOf(name)
    ensures d != "" && forall c | c in d :: '0' <= c <= '9'
  {
    var rest := name[|WORLDS|..];
    var i := Slash(rest, 0);
    SlashBefore(rest, 0);
    var base := rest[i + 1..];
    MainHasShape(base);
    d := MainFile(base).value.digits;
    assert base == "_main." + d + ".db2";
    DirPieces(name, rest, i);
  }

  lemma DirPieces(name: string, rest: string, i: nat)
    requires WORLDS <= name && rest == name[|WORLDS|..] && i < |rest| && rest[i] == '/'
    ensures name == WORLDS + rest[..i] + "/" + rest[i + 1..]
  {
    assert rest == rest[..i] + "/" + rest[i + 1..];
    assert name == WORLDS + rest;
  }

  lemma {:induction false} SlashBefore(s: string, i: nat)
    requires i <= |s|
    ensures var j := Slash(s, i); '/' !in s[i..j] && (j < |s| ==> s[j] == '/')
    decreases |s| - i
  {
    if i < |s| && s[i] != '/' {
      SlashBefore(s, i + 1);
      assert s[i..Slash(s, i)] == [s[i]] + s[i + 1..Slash(s, i)];
    }
  }

  // ------------------------------------------------------------ what an import makes of an entry

  lemma TrimShape(n: string)
    ensures TrimWorlds("worlds_local/" + n) == n
  {
    assert (WORLDS + n)[..|WORLDS|] == WORLDS && (WORLDS + n)[|WORLDS|..] == n;
  }

  /** Below the directory of a world, with worlds_local before it or not. */
  lemma DirEntryRole(world: string, n: string)
    requires ValidWorldName(world) && (IsMainName(n) || IsChunkName(n))
    ensures RoleOf("worlds_local/" + (world + "/" + n)) == InWorld(world, n)
    ensures world != "worlds_local" ==> RoleOf(world + "/" + n) == InWorld(world, n)
  {
    AllowedShape(n);
    AllowedHasNoSlash(n);
    var name := world + "/" + n;
    LastOf(world + "/", n);
    LastOf("worlds_local/" + (world + "/"), n);
    assert "worlds_local/" + (world + "/") + n == "worlds_local/" + name;
    TrimShape(name);
    BelowRole(world, n);
    OtherDir(world, n);
  }

  lemma OtherDir(world: string, n: string)
    requires '/' !in world
    ensures HasPrefix(world + "/" + n, "worlds_local/") ==> world == "worlds_local"
  {
    var name := world + "/" + n;
    if HasPrefix(name, "worlds_local/") {
      assert name == "worlds_local" + "/" + name[13..];
      FirstSlash(world, n, "worlds_local", name[13..]);
    }
  }

  lemma FirstSlash(a: string, n: string, b: string, m: string)
    requires '/' !in a && '/' !in b && a + "/" + n == b + "/" + m
    ensures a == b
  {
    SlashAt(a, n, 0);
    SlashAt(b, m, 0);
    assert (a + "/" + n)[..|a|] == a && (b + "/" + m)[..|b|] == b;
  }

  /** A flat half of a world, in any case of the extension; a backslash hides it. */
  lemma HalfRole(world: string, e: string, isDB: bool)
    requires world != "" && '/' !in world && '.' !in e && '/' !in e
    requires ToLower("." + e) == if isDB then ".db" else ".fwl"
    ensures RoleOf("worlds_local/" + (world + "." + e)) == if '\\' in world + "." + e then Skipped else Half(world, isDB)
  {
    var n := world + "." + e;
    ExtIs(world, e);
    assert e != "" by {
      assert |ToLower("." + e)| == 1 + |e|;
    }
    LastOf(WORLDS + world + ".", e);
    assert WORLDS + world + "." + e == WORLDS + n;
    TrimShape(n);
    assert '/' !in n;
    AfterLastNone(n, '/', |n|);
    assert |n| > 2;
  }

  // ------------------------------------------------------------ what an import leaves

  /** The world's place in a save directory. */
  predicate IsOfWorld(world: string, p: Place) {
    (p.Flat? && IsFlatName(world, p.name)) || (p.InDir? && p.dir == world)
  }

  lemma OwnedShape(world: string, p: Place)
    ensures Owned(world, p) <==> IsOfWorld(world, p)
  {
    if p.Flat? {
      FlatShape(world, p.name);
    }
  }

  /** A staged world put into a tree: its files, nothing else of a world that was there, and all the rest as it was. */
  lemma ImportedByShape(tree: Tree, staged: Staged, present: bool, p: Place)
    ensures var after := Imported(tree, staged, present);
      if staged.Pair? && p == Flat(staged.name + ".db") && staged.name + ".db" != staged.name + ".fwl" then
        p in after && after[p] == staged.db
      else if staged.Pair? && p == Flat(staged.name + ".fwl") then p in after && after[p] == staged.fwl
      else if staged.Dir? && p.InDir? && p.dir == staged.name && p.name in staged.files then
        p in after && after[p] == staged.files[p.name]
      else if present && IsOfWorld(staged.name, p) then p !in after
      else SameAt(after, tree, p)
  {
    OwnedShape(staged.name, p);
    if staged.Dir? {
      PutHas(staged.name, staged.files, p);
    }
  }

  /** The files an import carries over, by the shapes of their names. */
  ghost predicate ArrivesByShape(save: Save, p: Place) {
    if p.InDir? then save.dir && p.dir == save.name && (IsMainName(p.name) || IsChunkName(p.name))
    else p.Flat? && (p.name == save.name + ".db" || p.name == save.name + ".fwl") && '\\' !in save.name
  }

  lemma ArrivesShape(save: Save, p: Place)
    ensures Arrives(save, p) <==> ArrivesByShape(save, p)
  {
    if p.InDir? {
      AllowedShape(p.name);
    }
    assert FlatAt(save.name, 0) == Flat(save.name + ".db") && FlatAt(save.name, 1) == Flat(save.name + ".fwl");
  }

  lemma ReplacedByShape(after: Tree, tree: Tree, from: Tree, save: Save, present: bool, p: Place)
    requires IsReplaced(after, tree, from, save, present)
    ensures if ArrivesByShape(save, p) && p in from then p in after && after[p] == from[p]
            else if present && IsOfWorld(save.name, p) then p !in after
            else SameAt(after, tree, p)
  {
    OwnedShape(save.name, p);
    ArrivesShape(save, p);
    assert p in after <==> p in after;
  }

  /** A world exported and imported: what arrives, what goes and what stays, by the shapes of the names. */
  lemma ExportImportByShape(from: Tree, save: Save, listing: seq<string>, r: WorldImport.Outcome, tree: Tree, present: bool, p: Place)
    requires ValidWorldName(save.name) && ListsDir(from, save.name, listing) && Describes(from, save.name, save)
    requires TotalSize(Exported(from, save, listing)) <= MAX_ARCHIVE_BYTES
    requires IsStaging(Exported(from, save, listing), r) && r.Ready?
    ensures var after := Imported(tree, r.staged, present);
      if ArrivesByShape(save, p) && p in from then p in after && after[p] == from[p]
      else if present && IsOfWorld(save.name, p) then p !in after
      else SameAt(after, tree, p)
  {
    ExportImportLeaves(from, save, listing, r, tree, present);
    ReplacedByShape(Imported(tree, r.staged, present), tree, from, save, present, p);
  }
}
