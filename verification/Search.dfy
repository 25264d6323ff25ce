/**
 What finditer and re.sub do with a regular expression, given as the set of texts it
 matches: leftmost, non-overlapping, and as long as possible.
 */
module Search {
  import opened Options

  /** A character that no match covers, or a match. */
  datatype Piece = Plain(c: char) | Run(hex: string)

  type Language = string -> bool

  ghost predicate NoMatch(lang: Language, s: string) {
    forall n :: 0 < n <= |s| ==> !lang(s[..n])
  }

  /** x is the longest match at the front of s. */
  ghost predicate LongestMatch(lang: Language, s: string, x: string) {
    x != "" && x <= s && lang(x) && forall n :: |x| < n <= |s| ==> !lang(s[..n])
  }

  /** The pieces that the search cuts text into. */
  ghost predicate IsSearch(lang: Language, pieces: seq<Piece>, text: string)
    decreases |pieces|
  {
    if pieces == [] then text == ""
    else match pieces[0]
      case Plain(c) => text != "" && text[0] == c && NoMatch(lang, text) && IsSearch(lang, pieces[1..], text[1..])
      case Run(x) => LongestMatch(lang, text, x) && IsSearch(lang, pieces[1..], text[|x|..])
  }

  lemma FirstIsUnique(lang: Language, p: seq<Piece>, q: seq<Piece>, text: string)
    requires p != [] && q != [] && IsSearch(lang, p, text) && IsSearch(lang, q, text)
    ensures p[0] == q[0]
  {
    if p[0].Run? {
      assert text[..|p[0].hex|] == p[0].hex;
    }
    if q[0].Run? {
      assert text[..|q[0].hex|] == q[0].hex;
    }
  }

  /** There is one way to do it. */
  lemma {:induction false} SearchIsUnique(lang: Language, p: seq<Piece>, q: seq<Piece>, text: string)
    requires IsSearch(lang, p, text) && IsSearch(lang, q, text)
    ensures p == q
    decreases |p|
  {
    if p != [] && q != [] {
      FirstIsUnique(lang, p, q, text);
      SearchIsUnique(lang, p[1..], q[1..], text[if p[0].Run? then |p[0].hex| else 1..]);
      assert p == [p[0]] + p[1..] && q == [q[0]] + q[1..];
    }
  }

  /** The text with each match replaced. */
  function Replaced(pieces: seq<Piece>, replacement: string -> string): string {
    if pieces == [] then ""
    else (if pieces[0].Plain? then [pieces[0].c] else replacement(pieces[0].hex)) + Replaced(pieces[1..], replacement)
  }

  /** re.sub */
  ghost predicate IsSub(lang: Language, replacement: string -> string, s: string, t: string) {
    exists pieces :: IsSearch(lang, pieces, s) && t == Replaced(pieces, replacement)
  }

  // ---------------------------------------------------------------------
  // Substitution by a function that matches at the front
  // ---------------------------------------------------------------------

  datatype Match = Match(len: nat, replacement: string)

  /** A regular expression anchored at the front of a string, with its replacement. */
  type Matcher = string -> Option<Match>

  function Substitute(m: Matcher, s: string): string
    decreases |s|
  {
    if s == "" then ""
    else
      var hit := m(s);
      if hit.Some? && 0 < hit.value.len <= |s| then hit.value.replacement + Substitute(m, s[hit.value.len..])
      else [s[0]] + Substitute(m, s[1..])
  }

  /** m finds the longest match of the expression, and its replacement. */
  ghost predicate Finds(m: Matcher, lang: Language, replacement: string -> string, s: string) {
    match m(s)
    case None => NoMatch(lang, s)
    case Some(hit) => hit.len <= |s| && LongestMatch(lang, s, s[..hit.len]) && hit.replacement == replacement(s[..hit.len])
  }

  lemma {:induction false} SubstituteSearches(m: Matcher, lang: Language, replacement: string -> string, s: string)
      returns (pieces: seq<Piece>)
    requires forall r :: Finds(m, lang, replacement, r)
    ensures IsSearch(lang, pieces, s) && Substitute(m, s) == Replaced(pieces, replacement)
    decreases |s|
  {
    hide NoMatch, LongestMatch;
    pieces := [];
    if s != "" {
      assert Finds(m, lang, replacement, s);
      match m(s)
      case None =>
        var rest := SubstituteSearches(m, lang, replacement, s[1..]);
        pieces := [Plain(s[0])] + rest;
      case Some(hit) =>
        LongestIsNotEmpty(lang, s, s[..hit.len]);
        var rest := SubstituteSearches(m, lang, replacement, s[hit.len..]);
        pieces := [Run(s[..hit.len])] + rest;
    }
  }

  lemma LongestIsNotEmpty(lang: Language, s: string, x: string)
    requires LongestMatch(lang, s, x)
    ensures x != ""
  {
  }
}
