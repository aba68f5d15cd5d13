/** Which entries an update is for, told by section and key: internal/mods/cfg.go:218-263. */
module CfgKeys {
  import opened CfgFile

  /** The sections and keys differ, and a NUL in one of the sections makes them look alike. */
  ghost predicate Clash(s: string, k: string, t: string, l: string) {
    || (exists x :: t == s + "\0" + x && k == x + "\0" + l)
    || (exists x :: s == t + "\0" + x && l == x + "\0" + k)
  }

  lemma LongerClash(s: string, k: string, t: string, l: string)
    requires Combined(s, k) == Combined(t, l) && |s| < |t|
    ensures Clash(s, k, t, l)
  {
    var c, n := Combined(s, k), |s|;
    var x := t[n + 1..];
    assert c[..n] == s && c[n] == '\0' && c[n + 1..] == k;
    assert c[..|t|] == t && c[|t|] == '\0' && c[|t| + 1..] == l;
    assert t == t[..n] + [t[n]] + x;
    assert t[..n] == c[..n] && t[n] == c[n];
    assert k == c[n + 1..|t|] + [c[|t|]] + c[|t| + 1..];
    assert c[n + 1..|t|] == x;
  }

  /** Keys agree exactly for the same section and key, or when a NUL makes them clash. */
  lemma CombinedMeans(s: string, k: string, t: string, l: string)
    ensures Combined(s, k) == Combined(t, l) <==> (s == t && k == l) || Clash(s, k, t, l)
  {
    if Combined(s, k) == Combined(t, l) {
      if |s| < |t| {
        LongerClash(s, k, t, l);
      } else if |t| < |s| {
        LongerClash(t, l, s, k);
      } else {
        var c := Combined(s, k);
        assert c[..|s|] == s && c[..|t|] == t && c[|s| + 1..] == k && c[|t| + 1..] == l;
      }
    }
    if x :| t == s + "\0" + x && k == x + "\0" + l {
      assert Combined(s, k) == s + "\0" + x + "\0" + l == Combined(t, l);
    }
    if x :| s == t + "\0" + x && l == x + "\0" + k {
      assert Combined(t, l) == t + "\0" + x + "\0" + k == Combined(s, k);
    }
  }

  /** Without a NUL in a section nothing clashes. */
  lemma NoNulNoClash(s: string, k: string, t: string, l: string)
    requires '\0' !in s && '\0' !in t
    ensures !Clash(s, k, t, l)
  {
    forall x ensures t != s + "\0" + x {
      assert (s + "\0" + x)[|s|] == '\0';
    }
    forall x ensures s != t + "\0" + x {
      assert (t + "\0" + x)[|t|] == '\0';
    }
  }

  /** And with one it can: this update would be taken for that entry. */
  lemma NulClashes()
    ensures Clash("A", "B\0x", "A\0B", "x") && Combined("A", "B\0x") == Combined("A\0B", "x")
  {
    assert "A\0B" == "A" + "\0" + "B" && "B\0x" == "B" + "\0" + "x";
    CombinedMeans("A", "B\0x", "A\0B", "x");
  }

  /** The update (section, key) is for the entry. */
  ghost predicate IsFor(section: string, key: string, e: Entry) {
    (section == e.section && key == e.key) || Clash(section, key, e.section, e.key)
  }

  lemma KeyIsFor(section: string, key: string, e: Entry)
    ensures Combined(section, key) == KeyOf(e) <==> IsFor(section, key, e)
  {
    CombinedMeans(section, key, e.section, e.key);
  }
}
