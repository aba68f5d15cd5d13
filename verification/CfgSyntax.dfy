/**
 The line syntax of BepInEx .cfg files as internal/mods/cfg.go reads it, with its regular
 expressions as scanners.
 */
module CfgSyntax {
  import opened Ascii
  import opened Wrappers

  /** A `Key = Value` line cut where keyValuePattern cuts it; the eq group is `before` "=" `after`. */
  datatype Setting = Setting(indent: string, key: string, before: string, after: string, value: string)

  // ------------------------------------------------------------ scanners

  /** \s of a Go regular expression */
  predicate IsWs(c: char) {
    c == ' ' || c == '\t' || c == '\n' || c == '\r' || c == '\U{000C}'
  }

  /** unicode.IsSpace */
  predicate IsSpace(c: char) {
    || IsWs(c) || c == '\U{000B}' || c == '\U{0085}' || c == '\U{00A0}' || c == '\U{1680}'
    || '\U{2000}' <= c <= '\U{200A}' || c == '\U{2028}' || c == '\U{2029}' || c == '\U{202F}' || c == '\U{205F}'
    || c == '\U{3000}'
  }

  /** Past the \s characters from i on. */
  function SkipWs(s: string, i: nat): (j: nat)
    requires i <= |s|
    ensures i <= j <= |s|
    decreases |s| - i
  {
    if i < |s| && IsWs(s[i]) then SkipWs(s, i + 1) else i
  }

  /** Back over the \s characters before hi. */
  function BackWs(s: string, lo: nat, hi: nat): (j: nat)
    requires lo <= hi <= |s|
    ensures lo <= j <= hi
  {
    if lo < hi && IsWs(s[hi - 1]) then BackWs(s, lo, hi - 1) else hi
  }

  /** The first '=' from i on, or the length. */
  function FindEq(s: string, i: nat): (j: nat)
    requires i <= |s|
    ensures i <= j <= |s|
    decreases |s| - i
  {
    if i < |s| && s[i] != '=' then FindEq(s, i + 1) else i
  }

  function SkipSpace(s: string, i: nat): (j: nat)
    requires i <= |s|
    ensures i <= j <= |s|
    decreases |s| - i
  {
    if i < |s| && IsSpace(s[i]) then SkipSpace(s, i + 1) else i
  }

  function BackSpace(s: string, lo: nat, hi: nat): (j: nat)
    requires lo <= hi <= |s|
    ensures lo <= j <= hi
  {
    if lo < hi && IsSpace(s[hi - 1]) then BackSpace(s, lo, hi - 1) else hi
  }

  /** strings.TrimSpace */
  function TrimSpace(s: string): string {
    var i := SkipSpace(s, 0);
    s[i..BackSpace(s, i, |s|)]
  }

  /** sectionPattern: the bracketed name, trimmed. */
  function SectionOf(text: string): Option<string> {
    var i := SkipWs(text, 0);
    var end := BackWs(text, i, |text|);
    if i + 2 < end && text[i] == '[' && text[end - 1] == ']' then Some(TrimSpace(text[i + 1..end - 1])) else None
  }

  /** The pieces between the marks. */
  function CutSetting(text: string, i: nat, k: nat, j: nat, e: nat): Setting
    requires i <= k <= j < e <= |text|
  {
    Setting(text[..i], text[i..k], text[k..j], text[j + 1..e], text[e..])
  }

  /** keyValuePattern */
  function SettingOf(text: string): Option<Setting> {
    var i := SkipWs(text, 0);
    if i == |text| || text[i] == '=' || text[i] == '#' || text[i] == '[' then None
    else
      var j := FindEq(text, i);
      if j == |text| then None
      else
        Some(CutSetting(text, i, BackWs(text, i, j), j, SkipWs(text, j + 1)))
  }

  /** Comments and blank lines, as both the parser and the rewriter test for them. */
  predicate IsComment(text: string) {
    var trimmed := TrimSpace(text);
    trimmed != "" && trimmed[0] == '#'
  }

  predicate IsBlank(text: string) {
    TrimSpace(text) == ""
  }

  /** What a line is to the parser and the rewriter, tested in their order. */
  datatype Kind = Section(name: string) | Comment(trimmed: string) | Value(setting: Setting) | Ignored

  function KindOf(text: string): Kind {
    if SectionOf(text).Some? then Section(SectionOf(text).value)
    else if IsComment(text) then Comment(TrimSpace(text))
    else if IsBlank(text) || SettingOf(text).None? then Ignored
    else Value(SettingOf(text).value)
  }

  function Print(s: Setting): string {
    s.indent + s.key + s.before + "=" + s.after + s.value
  }

  // ------------------------------------------------------------ the shapes of the parts

  predicate AllWs(s: string) {
    forall k | 0 <= k < |s| :: IsWs(s[k])
  }

  predicate StartsNonWs(s: string) {
    s == "" || !IsWs(s[0])
  }

  predicate KeyShape(key: string) {
    && key != "" && !IsWs(key[0]) && key[0] != '#' && key[0] != '['
    && !IsWs(key[|key| - 1])
    && '=' !in key
  }

  /** The shape SettingOf gives its parts, the value aside. */
  predicate Framed(s: Setting) {
    AllWs(s.indent) && KeyShape(s.key) && AllWs(s.before) && AllWs(s.after)
  }

  // ------------------------------------------------------------ a value changed

  /** How a setting is read once v is written in: leading blanks of v join the gap after '='. */
  function Settled(s: Setting, v: string): Setting {
    var w := SkipWs(v, 0);
    s.(after := s.after + v[..w], value := v[w..])
  }

  /** A setting without its last character, when that is whitespace. */
  function Chopped(s: Setting): Setting
    requires s.value != "" || s.after != ""
  {
    if s.value != "" then s.(value := s.value[..|s.value| - 1]) else s.(after := s.after[..|s.after| - 1])
  }
}
