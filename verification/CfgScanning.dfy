/**
 Where the scanners of the .cfg line syntax stop.

 A `Key = Value` line has five marks: the ends of the indentation, of the key, of the blanks before '=', of '=' itself
 and of the blanks after it. Read forwards, the scanners find the marks and the text between two of them has the shape
 `Framed` asks for. Read backwards, a text printed from parts of that shape puts the marks where the parts meet. Writing
 a new value moves only the last mark, by the blanks the value begins with; and a line keeps being a comment, blank or a
 setting as long as it agrees up to the '='.
 */
module CfgScanning {
  import opened Ascii
  import opened CfgSyntax
  import opened Wrappers

  lemma {:induction false} SkipWsIs(s: string, i: nat)
    requires i <= |s|
    ensures var j := SkipWs(s, i); (forall k | i <= k < j :: IsWs(s[k])) && (j < |s| ==> !IsWs(s[j]))
    decreases |s| - i
  {
    if i < |s| && IsWs(s[i]) {
      SkipWsIs(s, i + 1);
    }
  }

  lemma {:induction false} BackWsIs(s: string, lo: nat, hi: nat)
    requires lo <= hi <= |s|
    ensures var j := BackWs(s, lo, hi); (forall k | j <= k < hi :: IsWs(s[k])) && (j > lo ==> !IsWs(s[j - 1]))
  {
    if lo < hi && IsWs(s[hi - 1]) {
      BackWsIs(s, lo, hi - 1);
    }
  }

  lemma {:induction false} FindEqIs(s: string, i: nat)
    requires i <= |s|
    ensures var j := FindEq(s, i); (forall k | i <= k < j :: s[k] != '=') && (j < |s| ==> s[j] == '=')
    decreases |s| - i
  {
    if i < |s| && s[i] != '=' {
      FindEqIs(s, i + 1);
    }
  }

  lemma {:induction false} SkipSpaceStops(s: string, i: nat)
    requires i <= |s|
    ensures var j := SkipSpace(s, i); j < |s| ==> !IsSpace(s[j])
    decreases |s| - i
  {
    if i < |s| && IsSpace(s[i]) {
      SkipSpaceStops(s, i + 1);
    }
  }

  lemma {:induction false} BackSpaceStops(s: string, lo: nat, hi: nat)
    requires lo < hi <= |s| && !IsSpace(s[lo])
    ensures BackSpace(s, lo, hi) > lo
  {
    if lo < hi && IsSpace(s[hi - 1]) {
      BackSpaceStops(s, lo, hi - 1);
    }
  }

  /** Five marks cut a text into six pieces that glue back. */
  lemma Glue(text: string, i: nat, k: nat, j: nat, e: nat)
    requires i <= k <= j < e <= |text| && text[j] == '='
    ensures text[..i] + text[i..k] + text[k..j] + "=" + text[j + 1..e] + text[e..] == text
  {
    assert text[..i] + text[i..k] == text[..k];
    assert text[..k] + text[k..j] == text[..j];
    assert text[..j] + "=" == text[..j + 1];
    assert text[..j + 1] + text[j + 1..e] == text[..e];
  }

  lemma SettingGlues(text: string)
    requires SettingOf(text).Some?
    ensures Print(SettingOf(text).value) == text
  {
    var i := SkipWs(text, 0);
    var j := FindEq(text, i);
    FindEqIs(text, i);
    Glue(text, i, BackWs(text, i, j), j, SkipWs(text, j + 1));
  }

  lemma MarksAreFramed(text: string, i: nat, j: nat)
    requires i == SkipWs(text, 0) < |text| && text[i] != '=' && text[i] != '#' && text[i] != '['
    requires j == FindEq(text, i) < |text|
    ensures i < j && text[j] == '='
    ensures var s := CutSetting(text, i, BackWs(text, i, j), j, SkipWs(text, j + 1)); Framed(s) && StartsNonWs(s.value)
  {
    FindEqIs(text, i);
    SkipWsIs(text, 0);
    SkipWsIs(text, j + 1);
    KeyIsShaped(text, i, j);
  }

  lemma KeyIsShaped(text: string, i: nat, j: nat)
    requires i < j < |text| && !IsWs(text[i]) && text[i] != '#' && text[i] != '['
    requires forall k | i <= k < j :: text[k] != '='
    ensures KeyShape(text[i..BackWs(text, i, j)]) && AllWs(text[BackWs(text, i, j)..j])
  {
    var k := BackWs(text, i, j);
    BackWsIs(text, i, j);
    assert k > i;
    assert text[i..k][0] == text[i] && text[i..k][k - i - 1] == text[k - 1];
  }

  lemma {:induction false} SkipWsStops(s: string, i: nat, j: nat)
    requires i <= j <= |s| && (forall k | i <= k < j :: IsWs(s[k])) && (j < |s| ==> !IsWs(s[j]))
    ensures SkipWs(s, i) == j
    decreases j - i
  {
    if i < j {
      SkipWsStops(s, i + 1, j);
    }
  }

  lemma {:induction false} BackWsStops(s: string, lo: nat, j: nat, hi: nat)
    requires lo <= j <= hi <= |s| && (forall k | j <= k < hi :: IsWs(s[k])) && (j > lo ==> !IsWs(s[j - 1]))
    ensures BackWs(s, lo, hi) == j
  {
    if j < hi {
      BackWsStops(s, lo, j, hi - 1);
    }
  }

  lemma {:induction false} FindEqStops(s: string, i: nat, j: nat)
    requires i <= j < |s| && (forall k | i <= k < j :: s[k] != '=') && s[j] == '='
    ensures FindEq(s, i) == j
    decreases j - i
  {
    if i < j {
      FindEqStops(s, i + 1, j);
    }
  }

  /** Where the parts of a printed setting lie. */
  lemma PrintParts(s: Setting, i: nat, k: nat, j: nat, e: nat)
    requires i == |s.indent| && k == i + |s.key| && j == k + |s.before| && e == j + 1 + |s.after|
    ensures var t := Print(s);
      && e <= |t| && t[..i] == s.indent && t[i..k] == s.key && t[k..j] == s.before && t[j] == '='
      && t[j + 1..e] == s.after && t[e..] == s.value
  {
  }

  /** What the scanners meet in a printed setting. */
  lemma PrintRuns(s: Setting, i: nat, k: nat, j: nat, e: nat)
    requires Framed(s) && StartsNonWs(s.value)
    requires i == |s.indent| && k == i + |s.key| && j == k + |s.before| && e == j + 1 + |s.after|
    ensures var t := Print(s);
      && e <= |t| && !IsWs(t[i]) && !IsWs(t[k - 1]) && t[j] == '=' && (e < |t| ==> !IsWs(t[e]))
      && (forall m | 0 <= m < i :: IsWs(t[m])) && (forall m | k <= m < j :: IsWs(t[m]))
      && (forall m | j + 1 <= m < e :: IsWs(t[m])) && (forall m | i <= m < j :: t[m] != '=')
  {
    var t := Print(s);
    PrintParts(s, i, k, j, e);
    assert forall m | 0 <= m < i :: t[m] == s.indent[m];
    assert forall m | i <= m < k :: t[m] == s.key[m - i];
    assert forall m | k <= m < j :: t[m] == s.before[m - k];
    assert forall m | j + 1 <= m < e :: t[m] == s.after[m - j - 1];
    assert e < |t| ==> t[e] == s.value[0];
  }

  lemma PrintMarks(s: Setting, i: nat, k: nat, j: nat, e: nat)
    requires Framed(s) && StartsNonWs(s.value)
    requires i == |s.indent| && k == i + |s.key| && j == k + |s.before| && e == j + 1 + |s.after|
    ensures e <= |Print(s)| && SkipWs(Print(s), 0) == i && FindEq(Print(s), i) == j
    ensures BackWs(Print(s), i, j) == k && SkipWs(Print(s), j + 1) == e
  {
    var t := Print(s);
    PrintRuns(s, i, k, j, e);
    SkipWsStops(t, 0, i);
    FindEqStops(t, i, j);
    BackWsStops(t, i, k, j);
    SkipWsStops(t, j + 1, e);
  }

  lemma SettledPrints(s: Setting, v: string)
    requires Framed(s)
    ensures Print(Settled(s, v)) == Print(s.(value := v))
    ensures Framed(Settled(s, v)) && StartsNonWs(Settled(s, v).value)
  {
    var w := SkipWs(v, 0);
    SkipWsIs(v, 0);
    var head := s.indent + s.key + s.before + "=";
    assert v == v[..w] + v[w..];
    assert head + s.after + v == head + (s.after + v[..w]) + v[w..];
  }

  lemma SectionFirst(text: string)
    requires SettingOf(text).Some?
    ensures SectionOf(text) == None
  {
  }

  lemma TrimHead(text: string)
    ensures IsBlank(text) <==> SkipSpace(text, 0) == |text|
    ensures !IsBlank(text) ==> IsComment(text) == (text[SkipSpace(text, 0)] == '#')
  {
    var i := SkipSpace(text, 0);
    var hi := BackSpace(text, i, |text|);
    SkipSpaceStops(text, 0);
    if i < |text| {
      BackSpaceStops(text, i, |text|);
    }
    assert i < hi ==> text[i..hi][0] == text[i];
  }

  lemma {:induction false} SkipSpaceAgrees(a: string, b: string, i: nat, j: nat)
    requires i <= j < |a| && j < |b| && a[..j + 1] == b[..j + 1] && a[j] == '='
    ensures SkipSpace(a, i) == SkipSpace(b, i) <= j
    decreases j - i
  {
    assert a[i] == a[..j + 1][i] && b[i] == b[..j + 1][i] && b[j] == b[..j + 1][j];
    if IsSpace(a[i]) {
      SkipSpaceAgrees(a, b, i + 1, j);
    }
  }

  lemma SameHead(a: Setting, b: Setting)
    requires a.indent == b.indent && a.key == b.key && a.before == b.before
    ensures var j := |a.indent| + |a.key| + |a.before|;
      && j < |Print(a)| && j < |Print(b)| && Print(a)[..j + 1] == Print(b)[..j + 1] && Print(a)[j] == '='
  {
    var head := a.indent + a.key + a.before + "=";
    assert Print(a) == head + (a.after + a.value);
    assert Print(b) == head + (b.after + b.value);
  }

  lemma SameTrimmed(a: Setting, b: Setting)
    requires a.indent == b.indent && a.key == b.key && a.before == b.before
    ensures !IsBlank(Print(a)) && !IsBlank(Print(b)) && IsComment(Print(a)) == IsComment(Print(b))
  {
    var x, y := Print(a), Print(b);
    SameHead(a, b);
    var j := |a.indent| + |a.key| + |a.before|;
    SkipSpaceAgrees(x, y, 0, j);
    TrimHead(x);
    TrimHead(y);
    var i := SkipSpace(x, 0);
    assert x[i] == x[..j + 1][i] == y[..j + 1][i] == y[i];
  }

  lemma SettledValue(s: Setting, v: string)
    ensures if StartsNonWs(v) then Settled(s, v) == s.(value := v) else |Settled(s, v).value| < |v|
  {
    if StartsNonWs(v) {
      assert v[..0] == "" && v[0..] == v && s.after + "" == s.after;
    }
  }

  lemma ChoppedPrints(s: Setting)
    requires Framed(s) && StartsNonWs(s.value) && Print(s)[|Print(s)| - 1] == '\r'
    ensures (s.value != "" || s.after != "") && Framed(Chopped(s)) && StartsNonWs(Chopped(s).value)
    ensures Print(Chopped(s)) == Print(s)[..|Print(s)| - 1]
  {
    var head := s.indent + s.key + s.before + "=";
    assert s.value == "" && s.after == "" ==> Print(s) == head;
    var t := Print(s)[..|Print(s)| - 1];
    if s.value != "" {
      assert t == head + s.after + Chopped(s).value;
    } else {
      assert Print(s) == head + s.after;
      assert t == head + Chopped(s).after == head + Chopped(s).after + "";
    }
  }
}
