/** What worlds a save directory holds, internal/backup/worldfiles.go:58-208. */
module WorldScan {
  import opened Ascii
  import opened SaveTree
  import opened WorldNames
  import opened Wrappers

  // ------------------------------------------------------------ specification: one directory

  /** name is _main.<N>.<ext> for a spelling of the number g. */
  predicate IsMainOf(name: string, g: nat, ext: string) {
    var m := MainFile(name);
    m.Some? && m.value.ext == ext && Atoi(m.value.digits) == Some(g)
  }

  ghost predicate HasMain(names: set<string>) {
    exists n :: n in names && MainFile(n).Some?
  }

  ghost predicate Has(names: set<string>, g: nat, ext: string) {
    exists n :: n in names && IsMainOf(n, g, ext)
  }

  /** g is the highest generation with its commit marker, 0 if none above 0 has one. */
  ghost predicate IsHighestCommitted(names: set<string>, g: nat) {
    && (g > 0 ==> Has(names, g, "ok"))
    && forall h: nat | h > 0 && Has(names, h, "ok") :: h <= g
  }

  datatype DirScan = DirScan(generation: nat, db: bool, fwl: bool)

  ghost predicate DescribesDir(names: set<string>, d: DirScan) {
    && IsHighestCommitted(names, d.generation)
    && (d.db <==> d.generation > 0 && Has(names, d.generation, "db2"))
    && (d.fwl <==> d.generation > 0 && Has(names, d.generation, "fwl2"))
  }

  lemma OneDescription(names: set<string>, c: DirScan, d: DirScan)
    requires DescribesDir(names, c) && DescribesDir(names, d)
    ensures c == d
  {
  }

  // ------------------------------------------------------------ the code: one directory

  datatype Gen = Gen(ok: bool, db: bool, fwl: bool)

  function Marked(g: Gen, ext: string): Gen {
    if ext == "ok" then g.(ok := true)
    else if ext == "db2" then g.(db := true)
    else if ext == "fwl2" then g.(fwl := true)
    else g
  }

  function AsSet(names: seq<string>): set<string> {
    set n | n in names
  }

  ghost predicate GenIs(names: set<string>, n: nat, g: Gen) {
    (g.ok <==> Has(names, n, "ok")) && (g.db <==> Has(names, n, "db2")) && (g.fwl <==> Has(names, n, "fwl2"))
  }

  /** The table of generations after the names seen. */
  ghost predicate TableOf(names: set<string>, gens: map<nat, Gen>) {
    && (forall n | n in gens :: GenIs(names, n, gens[n]))
    && (forall n: nat | n !in gens :: GenIs(names, n, Gen(false, false, false)))
  }

  lemma HasSnoc(names: set<string>, name: string, g: nat, ext: string)
    ensures Has(names + {name}, g, ext) <==> Has(names, g, ext) || IsMainOf(name, g, ext)
  {
    if Has(names, g, ext) {
      var n :| n in names && IsMainOf(n, g, ext);
      assert n in names + {name};
    }
    if IsMainOf(name, g, ext) {
      assert name in names + {name};
    }
  }

  // worldfiles.go:163-184
  method NoteMain(ghost names: set<string>, gens: map<nat, Gen>, name: string) returns (noted: map<nat, Gen>, main: bool)
    requires TableOf(names, gens)
    ensures TableOf(names + {name}, noted) && main == MainFile(name).Some?
  {
    forall g: nat, ext ensures Has(names + {name}, g, ext) <==> Has(names, g, ext) || IsMainOf(name, g, ext) {
      HasSnoc(names, name, g, ext);
    }
    var m := MainFile(name);
    if m.None? {
      return gens, false;
    }
    var n := Atoi(m.value.digits);
    if n.None? {
      return gens, true;
    }
    var g := if n.value in gens then gens[n.value] else Gen(false, false, false);
    noted, main := gens[n.value := Marked(g, m.value.ext)], true;
  }

  // worldfiles.go:142-195
  method ScanWorldDir(names: seq<string>) returns (found: Option<DirScan>)
    ensures found.Some? <==> HasMain(AsSet(names))
    ensures found.Some? ==> DescribesDir(AsSet(names), found.value)
  {
    var gens: map<nat, Gen> := map[];
    var sawMain := false;
    for i := 0 to |names|
      invariant TableOf(AsSet(names[..i]), gens) && sawMain == HasMain(AsSet(names[..i]))
    {
      AsSetSnoc(names, i);
      var main;
      gens, main := NoteMain(AsSet(names[..i]), gens, names[i]);
      sawMain := sawMain || main;
    }
    assert names[..|names|] == names;
    if !sawMain {
      return None;
    }
    var d := Highest(AsSet(names), gens);
    found := Some(d);
  }

  lemma AsSetSnoc(names: seq<string>, i: nat)
    requires i < |names|
    ensures AsSet(names[..i + 1]) == AsSet(names[..i]) + {names[i]}
    ensures HasMain(AsSet(names[..i + 1])) <==> HasMain(AsSet(names[..i])) || MainFile(names[i]).Some?
  {
    assert names[..i + 1] == names[..i] + [names[i]];
    assert names[i] in AsSet(names[..i + 1]);
  }

  // worldfiles.go:189-194
  method Highest(ghost names: set<string>, gens: map<nat, Gen>) returns (d: DirScan)
    requires TableOf(names, gens)
    ensures DescribesDir(names, d)
  {
    d := DirScan(0, false, false);
    var left := gens.Keys;
    while left != {}
      invariant left <= gens.Keys
      invariant d == if d.generation == 0 then DirScan(0, false, false)
                     else DirScan(d.generation, Has(names, d.generation, "db2"), Has(names, d.generation, "fwl2"))
      invariant d.generation > 0 ==> Has(names, d.generation, "ok")
      invariant forall h: nat | h > 0 && h !in left && Has(names, h, "ok") :: h <= d.generation
    {
      var n :| n in left;
      left := left - {n};
      var g := gens[n];
      if g.ok && n > d.generation {
        d := DirScan(n, g.db, g.fwl);
      }
    }
  }

  // ------------------------------------------------------------ specification: a world

  ghost function NamesIn(tree: Tree, dir: string): set<string> {
    set p | p in tree && p.InDir? && p.dir == dir :: p.name
  }

  /** A flat file counts for the world its stem names, in any letter case of the extension. */
  predicate CountsAs(name: string, world: string, ext: string) {
    LowerExt(name) == ext && Stem(name) == world && !IsBackupStem(world)
  }

  ghost predicate HasLegacy(tree: Tree, world: string, ext: string) {
    exists n {:trigger Flat(n)} :: Flat(n) in tree && CountsAs(n, world, ext)
  }

  /** What a scan of the tree reports for the world. */
  ghost predicate Describes(tree: Tree, world: string, save: Save) {
    && save.name == world
    && (save.legacyDB <==> HasLegacy(tree, world, ".db"))
    && (save.legacyFWL <==> HasLegacy(tree, world, ".fwl"))
    && (save.dir <==> !IsBackupStem(world) && HasMain(NamesIn(tree, world)))
    && if save.dir then DescribesDir(NamesIn(tree, world), DirScan(save.generation, save.dirDB, save.dirFWL))
       else save.generation == 0 && !save.dirDB && !save.dirFWL
  }

  // ------------------------------------------------------------ the code: all worlds

  datatype DirEntry = File(name: string) | Folder(name: string)

  function NoSave(world: string): Save {
    Save(world, false, false, false, 0, false, false)
  }

  ghost predicate SawFile(entries: seq<DirEntry>, world: string, ext: string) {
    exists n {:trigger File(n)} :: File(n) in entries && CountsAs(n, world, ext)
  }

  ghost predicate SawFolder(entries: seq<DirEntry>, inside: map<string, seq<string>>, world: string) {
    Folder(world) in entries && !IsBackupStem(world) && world in inside && HasMain(AsSet(inside[world]))
  }

  /** What the entries seen so far say about a world. */
  ghost predicate Tells(entries: seq<DirEntry>, inside: map<string, seq<string>>, world: string, save: Save) {
    && save.name == world
    && (save.legacyDB <==> SawFile(entries, world, ".db"))
    && (save.legacyFWL <==> SawFile(entries, world, ".fwl"))
    && (save.dir <==> SawFolder(entries, inside, world))
    && if save.dir then DescribesDir(AsSet(inside[world]), DirScan(save.generation, save.dirDB, save.dirFWL))
       else save.generation == 0 && !save.dirDB && !save.dirFWL
  }

  function Found(out: map<string, Save>, world: string): Save {
    if world in out then out[world] else NoSave(world)
  }

  predicate Exists(save: Save) {
    save.dir || save.legacyDB || save.legacyFWL
  }

  /** The table tells of every world, and lists those that have something: a directory without a main file is no world. */
  ghost predicate Tabled(entries: seq<DirEntry>, inside: map<string, seq<string>>, out: map<string, Save>) {
    forall w {:trigger Found(out, w)} ::
      Tells(entries, inside, w, Found(out, w)) && (w in out <==> Exists(Found(out, w)))
  }

  function AddFile(save: Save, name: string): Save {
    if CountsAs(name, save.name, ".db") then save.(legacyDB := true)
    else if CountsAs(name, save.name, ".fwl") then save.(legacyFWL := true)
    else save
  }

  lemma SawFileSnoc(entries: seq<DirEntry>, e: DirEntry, world: string, ext: string)
    ensures SawFile(entries + [e], world, ext) <==> SawFile(entries, world, ext) || (e.File? && CountsAs(e.name, world, ext))
  {
    if SawFile(entries, world, ext) {
      var n :| File(n) in entries && CountsAs(n, world, ext);
      assert File(n) in entries + [e];
    }
    if e.File? && CountsAs(e.name, world, ext) {
      assert File(e.name) in entries + [e];
    }
  }

  lemma TellsFile(entries: seq<DirEntry>, inside: map<string, seq<string>>, world: string, save: Save, name: string)
    requires Tells(entries, inside, world, save)
    ensures Tells(entries + [File(name)], inside, world, AddFile(save, name))
  {
    SawFileSnoc(entries, File(name), world, ".db");
    SawFileSnoc(entries, File(name), world, ".fwl");
    assert Folder(world) in entries + [File(name)] <==> Folder(world) in entries;
  }

  function AddFolder(save: Save, name: string, d: Option<DirScan>): Save {
    if name == save.name && !IsBackupStem(name) && d.Some? then
      save.(dir := true, generation := d.value.generation, dirDB := d.value.db, dirFWL := d.value.fwl)
    else save
  }

  lemma TellsFolder(entries: seq<DirEntry>, inside: map<string, seq<string>>, world: string, save: Save, name: string,
                    d: Option<DirScan>)
    requires Tells(entries, inside, world, save) && name in inside
    requires !IsBackupStem(name) ==> (d.Some? <==> HasMain(AsSet(inside[name])))
    requires d.Some? ==> DescribesDir(AsSet(inside[name]), d.value)
    ensures Tells(entries + [Folder(name)], inside, world, AddFolder(save, name, d))
  {
    SawFileSnoc(entries, Folder(name), world, ".db");
    SawFileSnoc(entries, Folder(name), world, ".fwl");
    assert Folder(world) in entries + [Folder(name)] <==> Folder(world) in entries || name == world;
  }

  // worldfiles.go:93-115
  method NoteFolder(ghost entries: seq<DirEntry>, inside: map<string, seq<string>>, out: map<string, Save>, name: string)
    returns (noted: map<string, Save>)
    requires Tabled(entries, inside, out) && name in inside
    ensures Tabled(entries + [Folder(name)], inside, noted)
  {
    noted := out;
    var d: Option<DirScan> := None;
    if !IsBackupStem(name) {
      d := ScanWorldDir(inside[name]);
    }
    if d.Some? {
      noted := out[name := Found(out, name).(dir := true, generation := d.value.generation, dirDB := d.value.db,
                                             dirFWL := d.value.fwl)];
    }
    forall w
      ensures Tells(entries + [Folder(name)], inside, w, Found(noted, w)) && (w in noted <==> Exists(Found(noted, w)))
    {
      assert Tells(entries, inside, w, Found(out, w));
      TellsFolder(entries, inside, w, Found(out, w), name, d);
    }
  }

  // worldfiles.go:117-135
  method NoteFile(ghost entries: seq<DirEntry>, inside: map<string, seq<string>>, out: map<string, Save>, name: string)
    returns (noted: map<string, Save>)
    requires Tabled(entries, inside, out)
    ensures Tabled(entries + [File(name)], inside, noted)
  {
    noted := out;
    var ext, stem := LowerExt(name), Stem(name);
    if (ext == ".db" || ext == ".fwl") && !IsBackupStem(stem) {
      var w := Found(out, stem);
      noted := out[stem := if ext == ".db" then w.(legacyDB := true) else w.(legacyFWL := true)];
    }
    forall w
      ensures Tells(entries + [File(name)], inside, w, Found(noted, w)) && (w in noted <==> Exists(Found(noted, w)))
    {
      assert Tells(entries, inside, w, Found(out, w));
      TellsFile(entries, inside, w, Found(out, w), name);
    }
  }

  // worldfiles.go:66-138
  method ScanWorlds(entries: seq<DirEntry>, inside: map<string, seq<string>>) returns (out: map<string, Save>)
    requires forall e | e in entries && e.Folder? :: e.name in inside
    ensures Tabled(entries, inside, out)
    ensures forall w :: w in out <==>
      SawFile(entries, w, ".db") || SawFile(entries, w, ".fwl") || SawFolder(entries, inside, w)
  {
    out := map[];
    for i := 0 to |entries|
      invariant Tabled(entries[..i], inside, out)
    {
      if entries[i].Folder? {
        out := NoteFolder(entries[..i], inside, out, entries[i].name);
      } else {
        out := NoteFile(entries[..i], inside, out, entries[i].name);
      }
      assert entries[..i + 1] == entries[..i] + [entries[i]];
    }
    assert entries[..|entries|] == entries;
    forall w ensures w in out <==>
      SawFile(entries, w, ".db") || SawFile(entries, w, ".fwl") || SawFolder(entries, inside, w)
    {
      assert Tells(entries, inside, w, Found(out, w));
    }
  }

  /** The entries are a listing of worlds_local, and inside lists its directories. */
  ghost predicate Lists(tree: Tree, entries: seq<DirEntry>, inside: map<string, seq<string>>) {
    && (forall n {:trigger Flat(n)} {:trigger File(n)} :: Flat(n) in tree <==> File(n) in entries)
    && (forall d | Folder(d) in entries :: d in inside && AsSet(inside[d]) == NamesIn(tree, d))
    && (forall d, n | InDir(d, n) in tree :: Folder(d) in entries)
  }

  // worldfiles.go:199-208
  method ScanWorld(ghost tree: Tree, entries: seq<DirEntry>, inside: map<string, seq<string>>, world: string)
    returns (save: Save)
    requires Lists(tree, entries, inside)
    ensures Describes(tree, world, save)
  {
    var all := ScanWorlds(entries, inside);
    save := Found(all, world);
    assert Tells(entries, inside, world, save);
    ListedIsTold(tree, entries, inside, world, save);
  }

  lemma ListedIsTold(tree: Tree, entries: seq<DirEntry>, inside: map<string, seq<string>>, world: string, save: Save)
    requires Lists(tree, entries, inside) && Tells(entries, inside, world, save)
    ensures Describes(tree, world, save)
  {
    if HasMain(NamesIn(tree, world)) {
      var n :| n in NamesIn(tree, world) && MainFile(n).Some?;
      assert InDir(world, n) in tree;
    }
  }
}
