/**
 What the lines of a .cfg file say, told by their characters: internal/mods/cfg.go:19-29 and 75-147.

 Trimming is characterised by what it takes away, white space, and what it leaves, a text without white space at its
 ends. A line is a header when it is a name in brackets with blanks around, a comment when it begins with '#', nothing
 when it is blank, and a setting when it prints from a key, '=' and a value; a header is nothing else. A comment with one
 of the five marks changes the one field the mark is for, to the trimmed rest of the comment, to the pieces of it between
 commas, or to the two words after "from" and "to". The words of a range are found by following the scanners over gaps
 and words, forwards to show that a text of that form is read so, and backwards to show that a text that is read has
 that form; no range begins in the mark itself, which has no 'f'. Together with the entries being those the lines call
 for, position by position, this fixes what is read from a file.
 */
module CfgShapes {
  import opened Ascii
  import opened CfgFile
  import opened CfgScanning
  import opened CfgSettings
  import opened CfgSyntax
  import opened Wrappers

  // ------------------------------------------------------------ trimming

  /** What a regular expression takes for whitespace, and the more that trimming does. */
  lemma Blanks(c: char)
    ensures IsWs(c) <==> c in ['\t', '\n', '\U{000C}', '\r', ' ']
    ensures IsSpace(c) <==>
      || c in ['\t', '\n', '\U{000B}', '\U{000C}', '\r', ' ', '\U{0085}', '\U{00A0}', '\U{1680}', '\U{2028}', '\U{2029}']
      || c in ['\U{202F}', '\U{205F}', '\U{3000}'] || '\U{2000}' <= c <= '\U{200A}'
  {
  }

  predicate AllSpace(s: string) {
    forall k | 0 <= k < |s| :: IsSpace(s[k])
  }

  /** No white space at either end. */
  predicate Trim(t: string) {
    t == "" || (!IsSpace(t[0]) && !IsSpace(t[|t| - 1]))
  }

  lemma {:induction false} SkipSpaceTo(s: string, i: nat, j: nat)
    requires i <= j <= |s| && (forall k | i <= k < j :: IsSpace(s[k])) && (j < |s| ==> !IsSpace(s[j]))
    ensures SkipSpace(s, i) == j
    decreases j - i
  {
    if i < j {
      SkipSpaceTo(s, i + 1, j);
    }
  }

  lemma {:induction false} BackSpaceTo(s: string, lo: nat, j: nat, hi: nat)
    requires lo <= j <= hi <= |s| && (forall k | j <= k < hi :: IsSpace(s[k])) && (j > lo ==> !IsSpace(s[j - 1]))
    ensures BackSpace(s, lo, hi) == j
  {
    if j < hi {
      BackSpaceTo(s, lo, j, hi - 1);
    }
  }

  /** White space around a text goes, and nothing else. */
  lemma TrimSpaceIs(a: string, t: string, b: string)
    requires AllSpace(a) && Trim(t) && AllSpace(b)
    ensures TrimSpace(a + t + b) == t
  {
    var s := a + t + b;
    if t == "" {
      assert forall k | 0 <= k < |s| :: IsSpace(s[k]);
      SkipSpaceTo(s, 0, |s|);
    } else {
      assert s[|a|] == t[0] && s[|a| + |t| - 1] == t[|t| - 1];
      SkipSpaceTo(s, 0, |a|);
      BackSpaceTo(s, |a|, |a| + |t|, |s|);
      assert s[|a|..|a| + |t|] == t;
    }
  }

  lemma {:induction false} SkipSpaceIs(s: string, i: nat)
    requires i <= |s|
    ensures AllSpace(s[i..SkipSpace(s, i)])
    decreases |s| - i
  {
    if i < |s| && IsSpace(s[i]) {
      SkipSpaceIs(s, i + 1);
      assert s[i..SkipSpace(s, i)] == [s[i]] + s[i + 1..SkipSpace(s, i)];
    }
  }

  lemma {:induction false} BackSpaceIs(s: string, lo: nat, hi: nat)
    requires lo <= hi <= |s|
    ensures var j := BackSpace(s, lo, hi); AllSpace(s[j..hi]) && (j > lo ==> !IsSpace(s[j - 1]))
  {
    if lo < hi && IsSpace(s[hi - 1]) {
      BackSpaceIs(s, lo, hi - 1);
      var j := BackSpace(s, lo, hi);
      assert s[j..hi] == s[j..hi - 1] + [s[hi - 1]];
    }
  }

  /** Every text is one without white space at its ends and white space around it. */
  lemma Trims(s: string) returns (a: string, t: string, b: string)
    ensures s == a + t + b && AllSpace(a) && Trim(t) && AllSpace(b)
  {
    var i := SkipSpace(s, 0);
    var j := BackSpace(s, i, |s|);
    SkipSpaceIs(s, 0);
    SkipSpaceStops(s, 0);
    BackSpaceIs(s, i, |s|);
    a, t, b := s[0..i], s[i..j], s[j..|s|];
    Glued(s, i, j);
  }

  lemma Glued(s: string, i: nat, j: nat)
    requires i <= j <= |s| && (i < j ==> !IsSpace(s[i]) && !IsSpace(s[j - 1]))
    ensures s == s[0..i] + s[i..j] + s[j..|s|] && Trim(s[i..j])
  {
  }

  // ------------------------------------------------------------ kinds of lines

  /** A name in brackets is a header for the name. */
  lemma HeaderLine(a: string, name: string, b: string)
    requires AllWs(a) && AllWs(b) && name != ""
    ensures KindOf(a + "[" + name + "]" + b) == Section(TrimSpace(name))
  {
    var text := a + "[" + name + "]" + b;
    var end := |a| + |name| + 2;
    assert text[|a|] == '[' && text[end - 1] == ']' && text[|a| + 1..end - 1] == name;
    SkipWsStops(text, 0, |a|);
    BackWsStops(text, |a|, end, |text|);
  }

  /** There are no other headers. */
  lemma HeaderIs(text: string) returns (a: string, name: string, b: string)
    requires KindOf(text).Section?
    ensures text == a + "[" + name + "]" + b && AllWs(a) && AllWs(b) && name != ""
  {
    var i := SkipWs(text, 0);
    var end := BackWs(text, i, |text|);
    SkipWsIs(text, 0);
    BackWsIs(text, i, |text|);
    a, name, b := text[..i], text[i + 1..end - 1], text[end..];
    assert text == a + "[" + name + "]" + b;
  }

  /** A text that begins with a mark loses white space at its end only. */
  lemma TrimsEnd(s: string) returns (t: string, b: string)
    requires s != "" && !IsSpace(s[0])
    ensures s == t + b && t != "" && t[0] == s[0] && Trim(t) && AllSpace(b)
  {
    var j := BackSpace(s, 0, |s|);
    BackSpaceIs(s, 0, |s|);
    BackSpaceStops(s, 0, |s|);
    t, b := s[..j], s[j..];
    assert s[j..|s|] == b;
  }

  /** White space in front makes no difference to what is trimmed. */
  lemma TrimFront(a: string, s: string)
    requires AllSpace(a) && s != "" && !IsSpace(s[0])
    ensures TrimSpace(a + s) == TrimSpace(s) != "" && TrimSpace(s)[0] == s[0]
  {
    var t, b := TrimsEnd(s);
    TrimBoth("", t, b);
    assert "" + (t + b) == s;
    TrimBoth(a, t, b);
  }

  lemma TrimBoth(a: string, t: string, b: string)
    requires AllSpace(a) && Trim(t) && AllSpace(b)
    ensures TrimSpace(a + (t + b)) == t
  {
    TrimSpaceIs(a, t, b);
    assert a + (t + b) == a + t + b;
  }

  lemma NoHeader(a: string, s: string)
    requires AllSpace(a) && s != "" && !IsSpace(s[0]) && s[0] != '['
    ensures SectionOf(a + s).None?
  {
    var text := a + s;
    var i := SkipWs(text, 0);
    SkipWsIs(text, 0);
    assert text[|a|] == s[0];
    assert i < |a| ==> IsSpace(text[i]);
  }

  /** What begins with '#' is a comment. */
  lemma CommentLine(a: string, rest: string)
    requires AllSpace(a)
    ensures KindOf(a + ("#" + rest)) == Comment(TrimSpace("#" + rest))
  {
    TrimFront(a, "#" + rest);
    NoHeader(a, "#" + rest);
  }

  /** White space alone is no line at all. */
  lemma BlankLine(text: string)
    requires AllSpace(text)
    ensures KindOf(text) == Ignored
  {
    TrimSpaceIs(text, "", "");
    assert text + "" + "" == text;
    var i := SkipWs(text, 0);
    assert i < |text| ==> IsSpace(text[i]);
  }

  /** A key, '=' and a value are a setting, with any gaps around the key and before the value. */
  lemma SettingLine(s: Setting)
    requires Framed(s) && !IsSpace(s.key[0]) && (s.value == "" || !IsWs(s.value[0]))
    ensures KindOf(Print(s)) == Value(s)
  {
    PrintParses(s);
    PrintGroups(s);
    KeyInFront(s.indent, s.key, s.before + "=" + s.after + s.value);
  }

  lemma PrintGroups(s: Setting)
    ensures Print(s) == s.indent + (s.key + (s.before + "=" + s.after + s.value))
  {
  }

  lemma KeyInFront(a: string, key: string, rest: string)
    requires AllSpace(a) && key != "" && !IsSpace(key[0]) && key[0] != '#' && key[0] != '['
    ensures SectionOf(a + (key + rest)).None? && !IsComment(a + (key + rest)) && !IsBlank(a + (key + rest))
  {
    NoHeader(a, key + rest);
    TrimFront(a, key + rest);
  }

  // ------------------------------------------------------------ comments

  lemma Begins(p: string, x: string)
    ensures HasPrefix(p + x, p) && (p + x)[|p|..] == x
  {
  }

  lemma DescriptionNoted(m: Meta, x: string)
    ensures Noted(m, "##" + x) == m.(desc := m.desc + [TrimSpace(x)])
  {
    Begins("##", x);
    NotedOnly(m, "##" + x, Description);
  }

  lemma TypeNoted(m: Meta, x: string)
    ensures Noted(m, "# Setting type:" + x) == m.(kind := TrimSpace(x))
  {
    Begins("# Setting type:", x);
    NotedOnly(m, "# Setting type:" + x, SettingType);
  }

  lemma DefaultNoted(m: Meta, x: string)
    ensures Noted(m, "# Default value:" + x) == m.(default := TrimSpace(x))
  {
    Begins("# Default value:", x);
    NotedOnly(m, "# Default value:" + x, Default);
  }

  /** Values are the trimmed pieces between commas that are not empty. */
  lemma ValuesNoted(m: Meta, x: string)
    ensures Noted(m, "# Acceptable values:" + x) == m.(acceptable := NonEmptyTrimmed(SplitOn(TrimSpace(x), ',')))
  {
    Begins("# Acceptable values:", x);
    NotedOnly(m, "# Acceptable values:" + x, Values);
  }

  /** Piece by piece. */
  lemma {:induction false} TrimmedPieces(front: seq<string>, more: seq<string>)
    ensures NonEmptyTrimmed(front + more) == NonEmptyTrimmed(front) + NonEmptyTrimmed(more)
    decreases |more|
  {
    if more == [] {
      assert front + more == front;
    } else {
      var less := more[..|more| - 1];
      TrimmedPieces(front, less);
      assert (front + more)[..|front + more| - 1] == front + less;
    }
  }

  lemma TrimmedPiece(v: string)
    ensures NonEmptyTrimmed([v]) == if TrimSpace(v) == "" then [] else [TrimSpace(v)]
  {
    assert [v][..0] == [] && NonEmptyTrimmed([]) == [];
  }

  // ------------------------------------------------------------ ranges

  predicate IsWord(s: string) {
    s != "" && forall k | 0 <= k < |s| :: !IsWs(s[k])
  }

  predicate IsGap(s: string) {
    s != "" && AllWs(s)
  }

  predicate EndsWord(s: string) {
    s == "" || IsWs(s[0])
  }

  lemma {:induction false} PastGap(s: string, i: nat, w: string, rest: string)
    requires i <= |s| && s[i..] == w + rest && AllWs(w) && StartsNonWs(rest)
    ensures SkipWs(s, i) == i + |w| && s[i + |w|..] == rest
    decreases |w|
  {
    if w != "" {
      assert s[i] == s[i..][0] == w[0];
      assert s[i + 1..] == s[i..][1..] == w[1..] + rest;
      PastGap(s, i + 1, w[1..], rest);
    } else {
      assert rest != "" ==> s[i] == s[i..][0] == rest[0];
    }
  }

  lemma {:induction false} PastWord(s: string, i: nat, w: string, rest: string)
    requires i <= |s| && s[i..] == w + rest && (w == "" || IsWord(w)) && EndsWord(rest)
    ensures SkipNonWs(s, i) == i + |w| && s[i + |w|..] == rest
    decreases |w|
  {
    if w != "" {
      assert s[i] == s[i..][0] == w[0];
      assert s[i + 1..] == s[i..][1..] == w[1..] + rest;
      PastWord(s, i + 1, w[1..], rest);
    } else {
      assert rest != "" ==> s[i] == s[i..][0] == rest[0];
    }
  }

  lemma NextWord(s: string, i: nat, w: string, a: string, rest: string) returns (p: nat, k: nat)
    requires i <= |s| && s[i..] == w + (a + rest) && IsGap(w) && IsWord(a) && EndsWord(rest)
    ensures i < p == SkipWs(s, i) && p < k == SkipNonWs(s, p) && s[p..k] == a && s[k..] == rest
  {
    p, k := i + |w|, i + |w| + |a|;
    PastGap(s, i, w, a + rest);
    PastWord(s, p, a, rest);
    Past(s, p, a, rest);
  }

  /** From, a word, to, a word, with gaps between them: the words are the bounds. */
  lemma RangeAtIs(s: string, i: nat, f: string, w1: string, a: string, w2: string, t: string, w3: string, b: string, c: string)
    requires i <= |s| && s[i..] == f + (w1 + (a + (w2 + (t + (w3 + (b + c))))))
    requires RangeShape(f, w1, a, w2, t, w3, b, c)
    ensures RangeAt(s, i) == Some(Bounds(a, b))
  {
    var p, k := FromWord(s, i, f, w1, a, w2 + (t + (w3 + (b + c))));
    var q, d, e := ToWord(s, k, w2, t, w3, b, c);
    BothWords(s, i, p, k, q, d, e);
  }

  /** "from" at i and the word [p, k) after it. */
  predicate FromAt(s: string, i: nat, p: nat, k: nat) {
    && i + 4 <= |s| && ToLower(s[i..i + 4]) == "from"
    && i + 4 < p == SkipWs(s, i + 4) && p < k == SkipNonWs(s, p)
  }

  /** "to" at q after a gap at k, and the word [d, e) after it. */
  predicate ToAt(s: string, k: nat, q: nat, d: nat, e: nat) {
    && k <= |s| && k < q == SkipWs(s, k) && q + 2 <= |s| && ToLower(s[q..q + 2]) == "to"
    && q + 2 < d == SkipWs(s, q + 2) && d < e == SkipNonWs(s, d)
  }

  lemma BothWords(s: string, i: nat, p: nat, k: nat, q: nat, d: nat, e: nat)
    requires FromAt(s, i, p, k) && ToAt(s, k, q, d, e)
    ensures RangeAt(s, i) == Some(Bounds(s[p..k], s[d..e]))
  {
  }

  lemma FromWord(s: string, i: nat, f: string, w: string, a: string, rest: string) returns (p: nat, k: nat)
    requires i <= |s| && s[i..] == f + (w + (a + rest)) && ToLower(f) == "from" && IsGap(w) && IsWord(a) && EndsWord(rest)
    ensures FromAt(s, i, p, k) && s[p..k] == a && s[k..] == rest
  {
    Past(s, i, f, w + (a + rest));
    p, k := NextWord(s, i + 4, w, a, rest);
  }

  lemma ToWord(s: string, k: nat, w2: string, t: string, w3: string, b: string, c: string) returns (q: nat, d: nat, e: nat)
    requires k <= |s| && s[k..] == w2 + (t + (w3 + (b + c)))
    requires IsGap(w2) && ToLower(t) == "to" && IsGap(w3) && IsWord(b) && EndsWord(c)
    ensures ToAt(s, k, q, d, e) && s[d..e] == b
  {
    q := ToMark(s, k, w2, t, w3 + (b + c));
    d, e := NextWord(s, q + 2, w3, b, c);
  }

  lemma ToMark(s: string, k: nat, w: string, t: string, rest: string) returns (q: nat)
    requires k <= |s| && s[k..] == w + (t + rest) && IsGap(w) && ToLower(t) == "to"
    ensures k < q == SkipWs(s, k) && q + 2 <= |s| && ToLower(s[q..q + 2]) == "to" && s[q + 2..] == rest
  {
    ToIsWord(t);
    PastGap(s, k, w, t + rest);
    q := k + |w|;
    Past(s, q, t, rest);
  }

  lemma Past(s: string, i: nat, w: string, rest: string)
    requires i <= |s| && s[i..] == w + rest
    ensures i + |w| <= |s| && s[i..i + |w|] == w && s[i + |w|..] == rest
  {
    assert s[i..i + |w|] == s[i..][..|w|];
    assert s[i + |w|..] == s[i..][|w|..];
  }

  lemma ToIsWord(t: string)
    requires ToLower(t) == "to"
    ensures |t| == 2 && !IsWs(t[0])
  {
    assert Lower(t[0]) == ToLower(t)[0] == 't';
  }

  /** What a range comment says, by its characters. */
  ghost predicate SaysRange(rest: string, a: string, b: string) {
    exists f, w1, w2, t, w3, c :: IsRangeOf(rest, f, w1, a, w2, t, w3, b, c)
  }

  ghost predicate IsRangeOf(rest: string, f: string, w1: string, a: string, w2: string, t: string, w3: string, b: string,
                            c: string) {
    rest == f + (w1 + (a + (w2 + (t + (w3 + (b + c)))))) && RangeShape(f, w1, a, w2, t, w3, b, c)
  }

  /** Where a range reads, it reads two words between from and to. */
  lemma RangeSays(s: string, i: nat)
    requires i <= |s| && RangeAt(s, i).Some?
    ensures SaysRange(s[i..], RangeAt(s, i).value.min, RangeAt(s, i).value.max)
  {
    var p, k, q, d, e := RangeMarks(s, i);
    MarksSay(s, i, p, k, q, d, e);
  }

  lemma RangeMarks(s: string, i: nat) returns (p: nat, k: nat, q: nat, d: nat, e: nat)
    requires i <= |s| && RangeAt(s, i).Some?
    ensures FromAt(s, i, p, k) && ToAt(s, k, q, d, e) && RangeAt(s, i) == Some(Bounds(s[p..k], s[d..e]))
  {
    p := SkipWs(s, i + 4);
    k := SkipNonWs(s, p);
    q := SkipWs(s, k);
    d := SkipWs(s, q + 2);
    e := SkipNonWs(s, d);
  }

  lemma MarksSay(s: string, i: nat, p: nat, k: nat, q: nat, d: nat, e: nat)
    requires FromAt(s, i, p, k) && ToAt(s, k, q, d, e)
    ensures IsRangeOf(s[i..], s[i..i + 4], s[i + 4..p], s[p..k], s[k..q], s[q..q + 2], s[q + 2..d], s[d..e], s[e..])
  {
    MarksShape(s, i, p, k, q, d, e);
    AllPieces(s, i, i + 4, p, k, q, q + 2, d, e);
  }

  predicate RangeShape(f: string, w1: string, a: string, w2: string, t: string, w3: string, b: string, c: string) {
    && ToLower(f) == "from" && ToLower(t) == "to"
    && IsGap(w1) && IsWord(a) && IsGap(w2) && IsGap(w3) && IsWord(b) && EndsWord(c)
  }

  lemma MarksShape(s: string, i: nat, p: nat, k: nat, q: nat, d: nat, e: nat)
    requires FromAt(s, i, p, k) && ToAt(s, k, q, d, e)
    ensures RangeShape(s[i..i + 4], s[i + 4..p], s[p..k], s[k..q], s[q..q + 2], s[q + 2..d], s[d..e], s[e..])
  {
    GapAndWord(s, i + 4, p, k);
    Gap(s, k, q);
    GapAndWord(s, q + 2, d, e);
  }

  lemma AllPieces(s: string, i: nat, j: nat, p: nat, k: nat, q: nat, r: nat, d: nat, e: nat)
    requires i <= j <= p <= k <= q <= r <= d <= e <= |s|
    ensures s[i..] == s[i..j] + (s[j..p] + (s[p..k] + (s[k..q] + (s[q..r] + (s[r..d] + (s[d..e] + s[e..]))))))
  {
    Pieces(s, i, j, p, k);
    Pieces(s, k, q, r, d);
    Cut(s, d, e);
  }

  lemma Cut(s: string, i: nat, j: nat)
    requires i <= j <= |s|
    ensures s[i..] == s[i..j] + s[j..]
  {
  }

  lemma Pieces(s: string, i: nat, j: nat, k: nat, l: nat)
    requires i <= j <= k <= l <= |s|
    ensures s[i..] == s[i..j] + (s[j..k] + (s[k..l] + s[l..]))
  {
    Cut(s, i, j);
    Cut(s, j, k);
    Cut(s, k, l);
  }

  lemma Gap(s: string, i: nat, j: nat)
    requires i < j <= |s| && j == SkipWs(s, i)
    ensures IsGap(s[i..j])
  {
    SkipWsIs(s, i);
  }

  lemma GapAndWord(s: string, i: nat, p: nat, k: nat)
    requires i < p <= |s| && p == SkipWs(s, i) && p < k == SkipNonWs(s, p)
    ensures IsGap(s[i..p]) && IsWord(s[p..k]) && EndsWord(s[k..])
  {
    Gap(s, i, p);
    SkipNonWsIs(s, p);
  }

  lemma {:induction false} SkipNonWsIs(s: string, i: nat)
    requires i <= |s|
    ensures var j := SkipNonWs(s, i); (forall k | i <= k < j :: !IsWs(s[k])) && (j < |s| ==> IsWs(s[j]))
    decreases |s| - i
  {
    if i < |s| && !IsWs(s[i]) {
      SkipNonWsIs(s, i + 1);
    }
  }

  lemma {:induction false} NoEarlierRange(s: string, i: nat, n: nat)
    requires i <= n <= |s| && forall k | i <= k < n :: s[k] != 'f' && s[k] != 'F'
    ensures FirstRange(s, i) == FirstRange(s, n)
    decreases n - i
  {
    if i < n {
      NoEarlierRange(s, i + 1, n);
      assert i + 4 <= |s| ==> ToLower(s[i..i + 4])[0] == Lower(s[i]);
    }
  }

  /** A range comment sets the bounds to the words after from and to, in any letter case. */
  lemma RangeNoted(m: Meta, rest: string, a: string, b: string)
    requires SaysRange(rest, a, b)
    ensures Noted(m, "# Acceptable value range: " + rest) == m.(bounds := Some(Bounds(a, b)))
  {
    var line := "# Acceptable value range: " + rest;
    var f, w1, w2, t, w3, c :| IsRangeOf(rest, f, w1, a, w2, t, w3, b, c);
    assert line[26..] == rest;
    RangeAtIs(line, 26, f, w1, a, w2, t, w3, b, c);
    MarkHasNoRange(rest);
    RangeMark(rest);
    NotedOnly(m, line, Range);
  }

  lemma RangeMark(rest: string)
    ensures HasPrefix("# Acceptable value range: " + rest, ACCEPT_RANGE)
  {
    assert "# Acceptable value range: " + rest == "# Acceptable value range:" + (" " + rest);
  }

  lemma MarkHasNoRange(rest: string)
    ensures FirstRange("# Acceptable value range: " + rest, 0) == FirstRange("# Acceptable value range: " + rest, 26)
  {
    var mark := "# Acceptable value range: ";
    assert forall k | 0 <= k < 26 :: mark[k] != 'f' && mark[k] != 'F';
    InFront(mark, rest);
    NoEarlierRange(mark + rest, 0, 26);
  }

  lemma InFront(mark: string, rest: string)
    requires forall k | 0 <= k < |mark| :: mark[k] != 'f' && mark[k] != 'F'
    ensures forall k | 0 <= k < |mark| :: (mark + rest)[k] != 'f' && (mark + rest)[k] != 'F'
  {
  }
}
