/**
 Character classes, letter case and string splitting, shared by the parsers.

 Letter case is that of ASCII. Splitting at a character and joining with it are inverse: joined pieces without the
 character are given back by splitting, and the pieces of a text, none of which has the character, join to that text.
 */
module Ascii {

  predicate IsDigit(c: char) {
    '0' <= c <= '9'
  }

  function Lower(c: char): char {
    if 'A' <= c <= 'Z' then (c as int + 32) as char else c
  }

  /** strings.ToLower on ASCII text */
  function ToLower(s: string): (r: string)
    ensures |r| == |s|
  {
    seq(|s|, k requires 0 <= k < |s| => Lower(s[k]))
  }

  predicate HasPrefix(s: string, p: string) {
    p <= s
  }

  predicate HasSuffix(s: string, p: string) {
    |p| <= |s| && s[|s| - |p|..] == p
  }

  /** strings.Split(s, sep) for a one-character separator */
  function SplitOn(s: string, sep: char): (r: seq<string>)
    ensures r != []
  {
    if s == "" then [""]
    else
      var front, c := SplitOn(s[..|s| - 1], sep), s[|s| - 1];
      if c == sep then front + [""] else front[..|front| - 1] + [front[|front| - 1] + [c]]
  }

  /** A separator and a piece without one add that piece. */
  lemma {:induction false} SplitAppend(s: string, piece: string, sep: char)
    requires sep !in piece
    ensures SplitOn(s + [sep] + piece, sep) == SplitOn(s, sep) + [piece]
    decreases |piece|
  {
    var t := s + [sep] + piece;
    if piece == "" {
      assert t[..|t| - 1] == s;
    } else {
      var front := piece[..|piece| - 1];
      SplitAppend(s, front, sep);
      assert t[..|t| - 1] == s + [sep] + front;
      assert front + [piece[|piece| - 1]] == piece;
    }
  }

  /** strings.Join(pieces, sep) for a one-character separator */
  function JoinOn(pieces: seq<string>, sep: char): string {
    if pieces == [] then ""
    else if |pieces| == 1 then pieces[0]
    else JoinOn(pieces[..|pieces| - 1], sep) + [sep] + pieces[|pieces| - 1]
  }

  lemma {:induction false} NothingToSplit(s: string, sep: char)
    requires sep !in s
    ensures SplitOn(s, sep) == [s]
  {
    if s != "" {
      NothingToSplit(s[..|s| - 1], sep);
      assert s == s[..|s| - 1] + [s[|s| - 1]];
    }
  }

  /** Splitting joined pieces gives them back. */
  lemma {:induction false} SplitOfJoin(pieces: seq<string>, sep: char)
    requires pieces != [] && forall p | p in pieces :: sep !in p
    ensures SplitOn(JoinOn(pieces, sep), sep) == pieces
  {
    var n := |pieces| - 1;
    assert pieces == pieces[..n] + [pieces[n]] && pieces[n] in pieces;
    if n == 0 {
      NothingToSplit(pieces[0], sep);
    } else {
      SplitOfJoin(pieces[..n], sep);
      SplitAppend(JoinOn(pieces[..n], sep), pieces[n], sep);
    }
  }

  /** Joining what was split gives the text back. */
  lemma {:induction false} JoinOfSplit(s: string, sep: char)
    ensures JoinOn(SplitOn(s, sep), sep) == s
  {
    if s != "" {
      var front, c := s[..|s| - 1], s[|s| - 1];
      assert s == front + [c];
      JoinOfSplit(front, sep);
      JoinOfSnoc(SplitOn(front, sep), c, sep);
    }
  }

  lemma JoinOfSnoc(front: seq<string>, c: char, sep: char)
    requires front != []
    ensures var n := |front| - 1;
      JoinOn(if c == sep then front + [""] else front[..n] + [front[n] + [c]], sep) == JoinOn(front, sep) + [c]
  {
    if c == sep {
      JoinSnoc(front, "", sep);
    } else {
      LastLonger(front, c, sep);
    }
  }

  /** No piece has a separator. */
  lemma {:induction false} PiecesAreFree(s: string, sep: char)
    ensures forall p | p in SplitOn(s, sep) :: sep !in p
  {
    if s != "" {
      PiecesAreFree(s[..|s| - 1], sep);
    }
  }

  lemma JoinSnoc(pieces: seq<string>, piece: string, sep: char)
    requires pieces != []
    ensures JoinOn(pieces + [piece], sep) == JoinOn(pieces, sep) + [sep] + piece
  {
    assert (pieces + [piece])[..|pieces|] == pieces;
  }

  lemma LastLonger(pieces: seq<string>, c: char, sep: char)
    requires pieces != []
    ensures var n := |pieces| - 1; JoinOn(pieces[..n] + [pieces[n] + [c]], sep) == JoinOn(pieces, sep) + [c]
  {
    var n := |pieces| - 1;
    if n > 0 {
      JoinSnoc(pieces[..n], pieces[n] + [c], sep);
      JoinSnoc(pieces[..n], pieces[n], sep);
      assert pieces[..n] + [pieces[n]] == pieces;
      assert JoinOn(pieces[..n], sep) + [sep] + (pieces[n] + [c]) == JoinOn(pieces[..n], sep) + [sep] + pieces[n] + [c];
    } else {
      assert pieces[..0] + [pieces[0] + [c]] == [pieces[0] + [c]];
    }
  }

  /** What lower case is: the capitals A to Z move by the distance from A to a, all else stays. */
  lemma LowerCase(s: string, i: nat)
    requires i < |s|
    ensures 'A' <= s[i] <= 'Z' ==> ToLower(s)[i] == s[i] + ('a' - 'A')
    ensures !('A' <= s[i] <= 'Z') ==> ToLower(s)[i] == s[i]
  {
  }
}
