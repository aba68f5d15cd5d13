/** The files of a world by the shapes of their names, and what a restore does to them: internal/backup/zip.go:56-311. */
module SaveShapes {
  import opened ArchiveNames
  import opened Ascii
  import opened BackupRoundTrip
  import opened Decimal
  import opened DecimalText
  import opened SaveTree
  import opened WorldNames
  import opened WorldScan
  import opened Wrappers

  // ------------------------------------------------------------ names

  /** _main.<digits> with one of the four extensions. */
  ghost predicate IsMainName(n: string) {
    exists d, e :: IsMainWith(n, d, e)
  }

  predicate IsMainWith(n: string, d: string, e: string) {
    && n == "_main." + d + e && d != "" && (forall c | c in d :: '0' <= c <= '9')
    && e in [".fwl2", ".db2", ".chunks", ".ok"]
  }

  ghost predicate IsChunkName(n: string) {
    (exists x :: n == x + ".chunk") && '/' !in n && '\\' !in n
  }

  lemma MainShape(d: string, e: string)
    requires IsMainWith("_main." + d + e, d, e)
    ensures MainFile("_main." + d + e) == Some(Main(d, e[1..]))
  {
    var n := "_main." + d + e;
    assert n == "_main." + (d + e) && n[..6] == "_main.";
    assert e[0] == '.';
    MainDigits("_main.", d, e, 6);
    assert n[6..6 + |d|] == d && n[6 + |d|..] == e;
  }

  lemma {:induction false} MainDigits(p: string, d: string, e: string, i: nat)
    requires |p| <= i <= |p + d| && (forall c | c in d :: IsDigit(c)) && e != "" && !IsDigit(e[0])
    ensures DigitsEnd(p + d + e, i) == |p + d|
    decreases |p + d| - i
  {
    var s := p + d + e;
    if i < |p + d| {
      assert s[i] == d[i - |p|] && d[i - |p|] in d;
      MainDigits(p, d, e, i + 1);
    } else {
      assert s[i] == e[0];
    }
  }

  lemma MainHasShape(n: string)
    requires MainFile(n).Some?
    ensures IsMainWith(n, MainFile(n).value.digits, "." + MainFile(n).value.ext)
  {
    var j := DigitsEnd(n, 6);
    var d, tail := n[6..j], n[j..];
    assert n == n[..6] + d + tail;
    assert tail == "." + tail[1..];
  }

  lemma ChunkShape(n: string)
    ensures HasSuffix(n, ".chunk") <==> exists x :: n == x + ".chunk"
  {
    if HasSuffix(n, ".chunk") {
      assert n == n[..|n| - 6] + ".chunk";
    }
    if x :| n == x + ".chunk" {
      assert n[|n| - 6..] == ".chunk";
    }
  }

  /** The files of a world's directory that a backup carries. */
  lemma AllowedShape(n: string)
    ensures AllowedDirFile(n) <==> IsMainName(n) || IsChunkName(n)
  {
    ChunkShape(n);
    if MainFile(n).Some? {
      MainHasShape(n);
    }
    if d, e :| IsMainWith(n, d, e) {
      MainShape(d, e);
    }
  }

  // ------------------------------------------------------------ a restored tree

  /** The flat files of a world. */
  predicate IsFlatName(world: string, n: string) {
    n == world + ".db" || n == world + ".fwl" || n == world + ".db.old" || n == world + ".fwl.old"
  }

  predicate IsListName(n: string) {
    n == "adminlist.txt" || n == "bannedlist.txt" || n == "permittedlist.txt"
  }

  /** p holds in after what it held in before, or nothing in both. */
  predicate SameAt(after: Tree, before: Tree, p: Place) {
    (p in after <==> p in before) && (p in after ==> after[p] == before[p])
  }

  lemma FlatShape(world: string, n: string)
    ensures IsFlatOf(world, Flat(n), |SUFFIXES|) <==> IsFlatName(world, n)
  {
    assert FlatAt(world, 0) == Flat(world + ".db") && FlatAt(world, 1) == Flat(world + ".fwl");
    assert FlatAt(world, 2) == Flat(world + ".db.old") && FlatAt(world, 3) == Flat(world + ".fwl.old");
  }

  /** A main or chunk file of the world's directory comes back with its bytes, and nothing else is in the directory. */
  lemma DirectoryAfter(from: Tree, tree: Tree, save: Save, listing: seq<string>, manifest: Bytes, n: string)
    requires ValidWorldName(save.name) && ListsDir(from, save.name, listing)
    ensures var after, p := Restored(tree, save.name, Backup(from, save, listing, manifest)), InDir(save.name, n);
      && (p in after <==> save.dir && p in from && (IsMainName(n) || IsChunkName(n)))
      && (p in after ==> after[p] == from[p])
  {
    RestoreLeaves(from, tree, save, listing, manifest);
    AllowedShape(n);
    var after, p := Restored(tree, save.name, Backup(from, save, listing, manifest)), InDir(save.name, n);
    assert p in after <==> Returns(save, p) && p in from;
  }

  /** A flat file of the world comes back with its bytes, unless a backslash in the name loses it; other files stay. */
  lemma FlatAfter(from: Tree, tree: Tree, save: Save, listing: seq<string>, manifest: Bytes, n: string)
    requires ValidWorldName(save.name) && ListsDir(from, save.name, listing)
    ensures var after, p := Restored(tree, save.name, Backup(from, save, listing, manifest)), Flat(n);
      if !IsFlatName(save.name, n) then SameAt(after, tree, p)
      else if '\\' in save.name then p !in after
      else SameAt(after, from, p)
  {
    RestoreLeaves(from, tree, save, listing, manifest);
    FlatShape(save.name, n);
    var after, p := Restored(tree, save.name, Backup(from, save, listing, manifest)), Flat(n);
    assert p in after <==> p in after;
  }

  /** The three lists come back when the backup has them; every other file stays as it was. */
  lemma OthersAfter(from: Tree, tree: Tree, save: Save, listing: seq<string>, manifest: Bytes, p: Place)
    requires ValidWorldName(save.name) && ListsDir(from, save.name, listing)
    requires p.Root? || (p.InDir? && p.dir != save.name)
    ensures var after := Restored(tree, save.name, Backup(from, save, listing, manifest));
      SameAt(after, if p.Root? && IsListName(p.name) && p in from then from else tree, p)
  {
    RestoreLeaves(from, tree, save, listing, manifest);
    var after := Restored(tree, save.name, Backup(from, save, listing, manifest));
    assert p in after <==> p in after;
  }
}
