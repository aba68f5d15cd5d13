/**
 Cutting and printing `Key = Value` lines are inverse, internal/mods/cfg.go:29 and 251-260.

 What the scanner cuts off a line prints as that line and has the shape the pattern demands; what has the shape is cut off
 its print again. So a line with a new value in it is read as a setting with the same key and the same spacing, the
 blanks the value begins with going to the spacing, and the value is read back exactly when it begins with none.
 */
module CfgSettings {
  import opened Ascii
  import opened CfgScanning
  import opened CfgSyntax
  import opened Wrappers

  lemma SettingPrints(text: string)
    requires SettingOf(text).Some?
    ensures Print(SettingOf(text).value) == text
    ensures Framed(SettingOf(text).value) && StartsNonWs(SettingOf(text).value.value)
  {
    var i := SkipWs(text, 0);
    var j := FindEq(text, i);
    MarksAreFramed(text, i, j);
    SettingGlues(text);
  }

  lemma PrintParses(s: Setting)
    requires Framed(s) && StartsNonWs(s.value)
    ensures SettingOf(Print(s)) == Some(s)
  {
    var i := |s.indent|;
    var k := i + |s.key|;
    var j := k + |s.before|;
    var e := j + 1 + |s.after|;
    PrintMarks(s, i, k, j, e);
    PrintParts(s, i, k, j, e);
    assert Print(s)[i] == s.key[0];
    assert CutSetting(Print(s), i, k, j, e) == s;
    MarksCut(Print(s), i, j);
  }

  lemma MarksCut(text: string, i: nat, j: nat)
    requires i == SkipWs(text, 0) < |text| && text[i] != '=' && text[i] != '#' && text[i] != '['
    requires j == FindEq(text, i) < |text|
    ensures SettingOf(text) == Some(CutSetting(text, i, BackWs(text, i, j), j, SkipWs(text, j + 1)))
  {
  }

  lemma ValuePrints(text: string)
    requires KindOf(text).Value?
    ensures Print(KindOf(text).setting) == text
    ensures Framed(KindOf(text).setting) && StartsNonWs(KindOf(text).setting.value)
  {
    SettingPrints(text);
  }

  /** A line that agrees with a setting line up to the '=' is a setting line too. */
  lemma StaysValue(a: Setting, b: Setting)
    requires KindOf(Print(a)).Value?
    requires a.indent == b.indent && a.key == b.key && a.before == b.before
    requires Framed(b) && StartsNonWs(b.value)
    ensures KindOf(Print(b)) == Value(b)
  {
    PrintParses(b);
    SectionFirst(Print(b));
    SameTrimmed(a, b);
  }

  /** Whatever the new value, the line keeps its kind, its key and its spacing, and only the value changes. */
  lemma RewriteReadsBack(text: string, v: string)
    requires KindOf(text).Value?
    ensures KindOf(Print(KindOf(text).setting.(value := v))) == Value(Settled(KindOf(text).setting, v))
  {
    var s := KindOf(text).setting;
    ValuePrints(text);
    SettledPrints(s, v);
    StaysValue(s, Settled(s, v));
  }

  /** The value written is the value read exactly when it does not begin with whitespace. */
  lemma ValueReadsBack(text: string, v: string)
    requires KindOf(text).Value?
    ensures var s := KindOf(text).setting;
      KindOf(Print(s.(value := v))) == Value(s.(value := v)) <==> StartsNonWs(v)
  {
    RewriteReadsBack(text, v);
    var s := KindOf(text).setting;
    SettledValue(s, v);
  }

  /** Losing a final '\r' costs the value that character, if there is a value. */
  lemma ChopReadsBack(s: Setting)
    requires KindOf(Print(s)) == Value(s) && Print(s)[|Print(s)| - 1] == '\r'
    ensures s.value != "" || s.after != ""
    ensures KindOf(Print(s)[..|Print(s)| - 1]) == Value(Chopped(s))
  {
    ValuePrints(Print(s));
    ChoppedPrints(s);
    StaysValue(s, Chopped(s));
  }
}
