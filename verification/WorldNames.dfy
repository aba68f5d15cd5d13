/** File names of world saves, internal/backup/worldfiles.go:59, worlds.go:18-23 and 526-530, zip.go:151-172. */
module WorldNames {
  import opened Ascii
  import opened Decimal
  import opened Wrappers

  /** The number and extension of _main.<N>.<ext>. */
  datatype Main = Main(digits: string, ext: string)

  const LISTS := ["adminlist.txt", "bannedlist.txt", "permittedlist.txt"]

  const SUFFIXES := [".db", ".fwl", ".db.old", ".fwl.old"]

  // ------------------------------------------------------------ paths

  /** One past the last separator before hi, or 0. */
  function AfterLast(s: string, sep: char, hi: nat): (j: nat)
    requires hi <= |s|
    ensures j <= hi
  {
    if hi == 0 || s[hi - 1] == sep then hi else AfterLast(s, sep, hi - 1)
  }

  /** filepath.Base of a name that does not end in a separator */
  function Base(name: string): string {
    name[AfterLast(name, '/', |name|)..]
  }

  /** Where filepath.Ext cuts: before the last dot after the last separator, or at the end. */
  function ExtAt(name: string): (i: nat)
    ensures i <= |name|
  {
    var dot := AfterLast(name, '.', |name|);
    if dot == 0 || '/' in name[dot..] then |name| else dot - 1
  }

  /** strings.ToLower(filepath.Ext(name)) */
  function LowerExt(name: string): string {
    ToLower(name[ExtAt(name)..])
  }

  /** strings.TrimSuffix(name, filepath.Ext(name)) */
  function Stem(name: string): string {
    name[..ExtAt(name)]
  }

  predicate ValidWorldName(name: string) {
    name != "" && name != "." && name != ".." && '/' !in name
  }

  predicate Contains(s: string, part: string) {
    part <= s || (s != "" && Contains(s[1..], part))
  }

  /** Valheim's own rolling copies. */
  predicate IsBackupStem(stem: string) {
    Contains(stem, "_backup_auto-") || Contains(stem, "_backup_cloud-") || Contains(stem, "_backup_restore-")
  }

  // ------------------------------------------------------------ save files

  /** mainFilePattern */
  function MainFile(base: string): (r: Option<Main>)
    ensures r.Some? ==> AllDigits(r.value.digits)
  {
    if !HasPrefix(base, "_main.") then None
    else
      var j := DigitsEnd(base, 6);
      var tail := base[j..];
      if j == 6 || tail !in [".fwl2", ".db2", ".chunks", ".ok"] then None else Some(Main(base[6..j], tail[1..]))
  }

  /** strconv.Atoi on digits, failing beyond an int */
  function Atoi(digits: string): Option<nat>
    requires AllDigits(digits)
  {
    if Value(digits, 0) <= MAX_INT then Some(Value(digits, 0)) else None
  }

  predicate AllowedDirFile(base: string) {
    MainFile(base).Some? || (HasSuffix(base, ".chunk") && '/' !in base && '\\' !in base)
  }

  predicate AllowedFileSuffix(base: string) {
    exists i | 0 <= i < |SUFFIXES| :: HasSuffix(base, SUFFIXES[i])
  }

  // ------------------------------------------------------------ facts

  lemma {:induction false} AfterLastIs(s: string, sep: char, j: nat, hi: nat)
    requires j <= hi <= |s| && (j > 0 ==> s[j - 1] == sep) && forall m | j <= m < hi :: s[m] != sep
    ensures AfterLast(s, sep, hi) == j
  {
    if j < hi {
      AfterLastIs(s, sep, j, hi - 1);
    }
  }

  lemma BaseIs(dir: string, base: string)
    requires '/' !in base && (dir == "" || dir[|dir| - 1] == '/')
    ensures Base(dir + base) == base
  {
    var s := dir + base;
    assert forall m | |dir| <= m < |s| :: s[m] == base[m - |dir|];
    AfterLastIs(s, '/', |dir|, |s|);
  }

  /** A name is its stem and its extension. */
  lemma ExtIs(stem: string, ext: string)
    requires '/' !in ext && '.' !in ext
    ensures Stem(stem + "." + ext) == stem && LowerExt(stem + "." + ext) == ToLower("." + ext)
  {
    var s := stem + "." + ext;
    var d := |stem| + 1;
    assert forall m | d <= m < |s| :: s[m] == ext[m - d];
    AfterLastIs(s, '.', d, |s|);
    assert s[d..] == ext && s[d - 1..] == "." + ext;
  }

  predicate Slashless(s: string) {
    '/' !in s && '\\' !in s
  }

  lemma SlashlessParts(s: string, i: nat, j: nat)
    requires i <= j <= |s| && Slashless(s[..i]) && Slashless(s[i..j]) && Slashless(s[j..])
    ensures Slashless(s)
  {
    assert s == s[..i] + s[i..j] + s[j..];
  }

  /** A main file's name has no separator. */
  lemma MainHasNoSlash(base: string)
    requires MainFile(base).Some?
    ensures Slashless(base) && base != ""
  {
    var j := DigitsEnd(base, 6);
    DigitsHaveNoSlash(base[6..j]);
    SlashlessParts(base, 6, j);
  }

  lemma DigitsHaveNoSlash(s: string)
    requires AllDigits(s)
    ensures Slashless(s)
  {
  }
}
