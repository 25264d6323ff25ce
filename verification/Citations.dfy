/**
 The citation post-processor: hex runs of an answer are resolved against the ids
 seen in the trace, each resolved run becomes [full-id], and the punctuation
 around the citations is collapsed by six regular-expression substitutions.
 */
module Citations {
  import opened Options
  import opened Search
  import opened Strings

  // ---------------------------------------------------------------------
  // Characters
  // ---------------------------------------------------------------------

  predicate IsHex(c: char) {
    '0' <= c <= '9' || 'a' <= c <= 'f' || 'A' <= c <= 'F'
  }

  predicate IsSoft(c: char) {
    c == '[' || c == ']' || c == ',' || IsSpace(c)
  }

  function Lower(c: char): char {
    if 'A' <= c <= 'Z' then ((c as int) + 32) as char else c
  }

  function LowerAll(s: string): string {
    seq(|s|, i requires 0 <= i < |s| => Lower(s[i]))
  }

  /** The value of a hexadecimal digit. */
  function DigitOf(c: char): int
    requires IsHex(c)
  {
    if c <= '9' then c as int - '0' as int else if c <= 'F' then c as int - 'A' as int + 10 else c as int - 'a' as int + 10
  }

  /** Lower-casing leaves a digit its value and no capital letter. */
  lemma LowerKeepsDigit(c: char)
    requires IsHex(c)
    ensures Lower(c) in "0123456789abcdef" && DigitOf(Lower(c)) == DigitOf(c)
  {
    var d := "0123456789abcdef";
    assert d[DigitOf(c)] == Lower(c);
  }

  predicate AllHex(s: string) {
    forall i :: 0 <= i < |s| ==> IsHex(s[i])
  }

  predicate AllSoft(s: string) {
    forall i :: 0 <= i < |s| ==> IsSoft(s[i])
  }

  predicate NoSoft(s: string) {
    forall i :: 0 <= i < |s| ==> !IsSoft(s[i])
  }

  /** s without brackets, commas and whitespace. */
  function Strip(s: string): string {
    if s == "" then "" else (if IsSoft(s[0]) then "" else [s[0]]) + Strip(s[1..])
  }

  // ---------------------------------------------------------------------
  // _resolve
  // ---------------------------------------------------------------------

  const MIN_RUN: nat := 6
  const MAX_RUN: nat := 70
  const ID_LENGTH: nat := 64

  predicate IsId(s: string) {
    |s| == ID_LENGTH && AllHex(s) && LowerAll(s) == s
  }

  lemma IdIff(s: string)
    ensures IsId(s) <==> |s| == 64 && forall i :: 0 <= i < |s| ==> s[i] in "0123456789abcdef"
  {
    var d := "0123456789abcdef";
    if IsId(s) {
      forall i | 0 <= i < |s| ensures s[i] in d {
        assert LowerAll(s)[i] == Lower(s[i]);
        LowerKeepsDigit(s[i]);
      }
    }
    if |s| == 64 && forall i :: 0 <= i < |s| ==> s[i] in d {
      forall i | 0 <= i < |s| ensures IsHex(s[i]) && LowerAll(s)[i] == s[i] {
        assert s[i] in d;
      }
    }
  }

  ghost predicate KnownIds(known: set<string>) {
    forall k :: k in known ==> IsId(k)
  }

  lemma OneMember(s: set<string>)
    requires |s| == 1
    ensures forall a, b :: a in s && b in s ==> a == b
  {
    forall a, b | a in s && b in s ensures a == b {
      assert |s - {a}| == 0;
      assert b !in s - {a};
    }
  }

  /** The known ids that m abbreviates. */
  function Matches(m: string, known: set<string>): set<string> {
    set k | k in known && m <= k
  }

  function Resolve(marker: string, known: set<string>): Option<string> {
    var m := LowerAll(marker);
    if !(MIN_RUN <= |m| <= MAX_RUN && AllHex(m)) then None
    else if |m| == ID_LENGTH && m in known then Some(m)
    else if |m| > ID_LENGTH then (if m[..ID_LENGTH] in known then Some(m[..ID_LENGTH]) else None)
    else
      var matches := Matches(m, known);
      if |matches| == 1 then
        OneMember(matches);
        var k :| k in matches;
        Some(k)
      else None
  }

  // ---------------------------------------------------------------------
  // Hex runs of a text
  // ---------------------------------------------------------------------

  /** Hex characters at the front of s, at most limit of them. */
  function HexLen(s: string, limit: nat): (n: nat)
    ensures n <= |s| && n <= limit
  {
    if limit == 0 || s == "" || !IsHex(s[0]) then 0 else 1 + HexLen(s[1..], limit - 1)
  }

  /** The text as plain characters and the matches of [0-9a-fA-F]{6,70}. */
  function Pieces(text: string): seq<Piece>
    decreases |text|
  {
    if text == "" then []
    else
      var n := HexLen(text, MAX_RUN);
      if n >= MIN_RUN then [Run(text[..n])] + Pieces(text[n..]) else [Plain(text[0])] + Pieces(text[1..])
  }

  type Resolver = map<string, Option<string>>

  /** resolver.get(run.lower()), when it is a non-empty id. */
  function Target(hex: string, resolver: Resolver): Option<string> {
    var key := LowerAll(hex);
    if key in resolver && resolver[key].Some? && resolver[key].value != "" then resolver[key] else None
  }

  function Render(p: Piece, resolver: Resolver): string {
    match p
    case Plain(c) => [c]
    case Run(hex) => if Target(hex, resolver).Some? then "[" + Target(hex, resolver).value + "]" else hex
  }

  function Joined(pieces: seq<Piece>, resolver: Resolver): string {
    if pieces == [] then "" else Render(pieces[0], resolver) + Joined(pieces[1..], resolver)
  }

  // ---------------------------------------------------------------------
  // The six expressions and their replacements
  // ---------------------------------------------------------------------

  /** Whitespace characters at the front of s. */
  function SpaceLen(s: string): (n: nat)
    ensures n <= |s| && (n < |s| ==> !IsSpace(s[n]))
    ensures forall i :: 0 <= i < n ==> IsSpace(s[i])
  {
    if s == "" || !IsSpace(s[0]) then 0
    else
      var n := SpaceLen(s[1..]);
      assert forall i :: 0 < i < n + 1 ==> s[i] == s[1..][i - 1];
      n + 1
  }

  predicate At(s: string, i: nat, c: char) {
    i < |s| && s[i] == c
  }

  /** \]\s*,\s*\[  becomes  ] [ */
  function CommasBetweenIds(s: string): Option<Match> {
    if !At(s, 0, ']') then None
    else
      var i := 1 + SpaceLen(s[1..]);
      if !At(s, i, ',') then None
      else
        var j := i + 1 + SpaceLen(s[i + 1..]);
        if At(s, j, '[') then Some(Match(j + 1, "] [")) else None
  }

  /** open, optional whitespace, close */
  function Pair(s: string, open: char, close: char, replacement: string): Option<Match> {
    if !At(s, 0, open) then None
    else
      var i := 1 + SpaceLen(s[1..]);
      if At(s, i, close) then Some(Match(i + 1, replacement)) else None
  }

  function DoubleOpen(s: string): Option<Match> { Pair(s, '[', '[', "[") }

  function DoubleClose(s: string): Option<Match> { Pair(s, ']', ']', "]") }

  function EmptyBrackets(s: string): Option<Match> { Pair(s, '[', ']', "") }

  /** \[\s+ or \s+\]  becomes the bracket alone */
  function SpaceInside(s: string): Option<Match> {
    if At(s, 0, '[') && SpaceLen(s[1..]) > 0 then Some(Match(1 + SpaceLen(s[1..]), "["))
    else if SpaceLen(s) > 0 && At(s, SpaceLen(s), ']') then Some(Match(SpaceLen(s) + 1, "]"))
    else None
  }

  /** Blanks (U+0020 only) at the front of s. */
  function BlankLen(s: string): (n: nat)
    ensures n <= |s| && (n < |s| ==> s[n] != ' ') && forall i :: 0 <= i < n ==> s[i] == ' '
  {
    if !At(s, 0, ' ') then 0
    else
      var n := BlankLen(s[1..]);
      assert forall i :: 0 < i < n + 1 ==> s[i] == s[1..][i - 1];
      n + 1
  }

  /** two or more blanks become one */
  function ManyBlanks(s: string): Option<Match> {
    if BlankLen(s) >= 2 then Some(Match(BlankLen(s), " ")) else None
  }

  function Collapse(text: string): string {
    var t1 := Substitute(CommasBetweenIds, text);
    var t2 := Substitute(DoubleOpen, t1);
    var t3 := Substitute(DoubleClose, t2);
    var t4 := Substitute(EmptyBrackets, t3);
    var t5 := Substitute(SpaceInside, t4);
    Substitute(ManyBlanks, t5)
  }

  function Rewritten(text: string, resolver: Resolver): string {
    Collapse(Joined(Pieces(text), resolver))
  }

  // ---------------------------------------------------------------------
  // The expressions as sets of texts
  // ---------------------------------------------------------------------

  const HEX_DIGITS := "0123456789abcdefABCDEF"

  /** [0-9a-fA-F]{6,70} */
  predicate IsHexRun(x: string) {
    6 <= |x| <= 70 && forall i :: 0 <= i < |x| ==> x[i] in HEX_DIGITS
  }

  /** \]\s*,\s*\[ */
  ghost predicate CommaBetween(x: string) {
    exists a, b :: AllSpace(a) && AllSpace(b) && x == "]" + a + "," + b + "["
  }

  /** \[\s*\[ */
  ghost predicate OpenOpen(x: string) {
    exists a :: AllSpace(a) && x == "[" + a + "["
  }

  /** \]\s*\] */
  ghost predicate CloseClose(x: string) {
    exists a :: AllSpace(a) && x == "]" + a + "]"
  }

  /** \[\s*\] */
  ghost predicate OpenClose(x: string) {
    exists a :: AllSpace(a) && x == "[" + a + "]"
  }

  /** \[\s+|\s+\] */
  ghost predicate SpaceAtBracket(x: string) {
    exists a :: AllSpace(a) && a != "" && (x == "[" + a || x == a + "]")
  }

  /** Two or more blanks. */
  ghost predicate TwoBlanks(x: string) {
    |x| >= 2 && forall i :: 0 <= i < |x| ==> x[i] == ' '
  }

  function ToCloseOpen(x: string): string { "] [" }

  function ToOpen(x: string): string { "[" }

  function ToClose(x: string): string { "]" }

  function ToNothing(x: string): string { "" }

  function ToBracket(x: string): string { if '[' in x then "[" else "]" }

  function ToBlank(x: string): string { " " }

  /** _collapse_citation_punctuation: t comes from s by the six substitutions, in this order. */
  ghost predicate CleanedUp(s: string, t: string) {
    exists t1, t2, t3, t4, t5 ::
      && IsSub(CommaBetween, ToCloseOpen, s, t1)
      && IsSub(OpenOpen, ToOpen, t1, t2)
      && IsSub(CloseClose, ToClose, t2, t3)
      && IsSub(OpenClose, ToNothing, t3, t4)
      && IsSub(SpaceAtBracket, ToBracket, t4, t5)
      && IsSub(TwoBlanks, ToBlank, t5, t)
  }

  /** A run that the resolver knows becomes its id in brackets. */
  function Cited(resolver: Resolver): string -> string {
    hex =>
      var key := LowerAll(hex);
      if key in resolver && resolver[key].Some? && resolver[key].value != "" then "[" + resolver[key].value + "]" else hex
  }

  /** _rewrite_text: every hex run of the text in the form the resolver gives it, then the clean-up. */
  ghost predicate IsRewrite(text: string, resolver: Resolver, out: string) {
    exists pieces :: IsSearch(IsHexRun, pieces, text) && CleanedUp(Replaced(pieces, Cited(resolver)), out)
  }

  lemma {:induction false} HexLenMeaning(s: string, limit: nat)
    ensures forall i :: 0 <= i < HexLen(s, limit) ==> IsHex(s[i])
    ensures HexLen(s, limit) == limit || HexLen(s, limit) == |s| || !IsHex(s[HexLen(s, limit)])
  {
    if limit != 0 && s != "" && IsHex(s[0]) {
      HexLenMeaning(s[1..], limit - 1);
      forall i | 0 <= i < HexLen(s, limit) ensures IsHex(s[i]) {
        assert i > 0 ==> s[i] == s[1..][i - 1];
      }
    }
  }

  lemma HexDigits(c: char)
    ensures IsHex(c) <==> c in HEX_DIGITS
  {
    var d := "0123456789abcdefABCDEF";
    if '0' <= c <= '9' {
      assert d[c as int - '0' as int] == c;
    } else if 'a' <= c <= 'f' {
      assert d[10 + c as int - 'a' as int] == c;
    } else if 'A' <= c <= 'F' {
      assert d[16 + c as int - 'A' as int] == c;
    }
  }

  lemma HexRunAtFront(text: string)
    ensures var n := HexLen(text, MAX_RUN);
      if n >= MIN_RUN then LongestMatch(IsHexRun, text, text[..n]) else NoMatch(IsHexRun, text)
  {
    var n := HexLen(text, MAX_RUN);
    HexLenMeaning(text, MAX_RUN);
    forall c: char ensures IsHex(c) <==> c in HEX_DIGITS {
      HexDigits(c);
    }
    forall m | n < m <= |text| ensures !IsHexRun(text[..m]) {
      assert m <= 70 ==> text[..m][n] == text[n];
    }
  }

  lemma {:induction false} PiecesAreSearch(text: string)
    ensures IsSearch(IsHexRun, Pieces(text), text)
    decreases |text|
  {
    hide LongestMatch, NoMatch, HexLen;
    if text != "" {
      var n := HexLen(text, MAX_RUN);
      HexRunAtFront(text);
      if n >= MIN_RUN {
        PiecesAreSearch(text[n..]);
      } else {
        PiecesAreSearch(text[1..]);
      }
    }
  }

  lemma {:induction false} JoinedIsReplaced(pieces: seq<Piece>, resolver: Resolver)
    ensures Joined(pieces, resolver) == Replaced(pieces, Cited(resolver))
  {
    if pieces != [] {
      JoinedIsReplaced(pieces[1..], resolver);
    }
  }

  lemma SpaceThen(s: string, a: string, c: char)
    requires AllSpace(a) && c in ",[]" && a + [c] <= s
    ensures SpaceLen(s) == |a| && At(s, |a|, c)
  {
    assert s[..|a|] == a && s[|a|] == c;
  }

  lemma CommaParts(a: string, b: string) returns (z: string, y: string)
    ensures "]" + a + "," + b + "[" == "]" + z && z == a + ("," + y) && y == b + "["
    ensures a + [','] <= z && z[|a| + 1..] == y && |z| == |a| + 1 + |y|
  {
    y := b + "[";
    z := a + ("," + y);
    assert z == (a + ",") + y;
  }

  lemma CommaSplit(s: string, n: nat, a: string, b: string)
    requires n <= |s| && s[..n] == "]" + a + "," + b + "["
    ensures n == |a| + |b| + 3 && s[0] == ']' && a + [','] <= s[1..] && b + ['['] <= s[|a| + 2..]
  {
    var z, y := CommaParts(a, b);
    assert s[1..n] == z;
    assert s[1..][..|z|] == z;
    assert s[|a| + 2..][..|y|] == z[|a| + 1..];
  }

  lemma CommaLength(s: string, n: nat)
    requires n <= |s| && CommaBetween(s[..n])
    ensures CommasBetweenIds(s) == Some(Match(n, "] ["))
  {
    hide SpaceLen, AllSpace, IsSpace;
    var a, b :| AllSpace(a) && AllSpace(b) && s[..n] == "]" + a + "," + b + "[";
    CommaSplit(s, n, a, b);
    SpaceThen(s[1..], a, ',');
    SpaceThen(s[|a| + 2..], b, '[');
  }

  lemma CommaFound(s: string)
    requires CommasBetweenIds(s).Some?
    ensures CommasBetweenIds(s).value.len <= |s| && CommaBetween(s[..CommasBetweenIds(s).value.len])
  {
    var i := 1 + SpaceLen(s[1..]);
    var j := i + 1 + SpaceLen(s[i + 1..]);
    assert AllSpace(s[1..i]) && AllSpace(s[i + 1..j]);
    hide SpaceLen, IsSpace, AllSpace;
    assert s[..1] == "]" && s[i..i + 1] == "," && s[j..j + 1] == "[";
    FiveParts(s, i, j);
  }

  lemma FiveParts(s: string, i: nat, j: nat)
    requires 1 <= i < j < |s|
    ensures s[..j + 1] == s[..1] + s[1..i] + s[i..i + 1] + s[i + 1..j] + s[j..j + 1]
  {
  }

  lemma CommasFind(s: string)
    ensures Finds(CommasBetweenIds, CommaBetween, ToCloseOpen, s)
  {
    forall n | 0 < n <= |s| && CommaBetween(s[..n]) ensures CommasBetweenIds(s) == Some(Match(n, "] [")) {
      CommaLength(s, n);
    }
    if CommasBetweenIds(s).Some? {
      CommaFound(s);
      assert CommasBetweenIds(s).value.replacement == "] [" && CommasBetweenIds(s).value.len > 0;
      hide CommasBetweenIds, CommaBetween;
    } else {
      hide CommasBetweenIds, CommaBetween;
    }
  }

  /** open, whitespace, close */
  ghost predicate Enclosed(open: char, close: char, x: string) {
    exists a :: AllSpace(a) && x == [open] + a + [close]
  }

  lemma PairLength(s: string, open: char, close: char, replacement: string, n: nat)
    requires n <= |s| && !IsSpace(close) && Enclosed(open, close, s[..n])
    ensures Pair(s, open, close, replacement) == Some(Match(n, replacement))
  {
    var a :| AllSpace(a) && s[..n] == [open] + a + [close];
    assert s[1..][..|a|] == a && s[1..][|a|] == close;
    assert SpaceLen(s[1..]) == |a|;
  }

  /** What Pair finds is the one enclosed text at the front. */
  lemma PairFinds(s: string, open: char, close: char, replacement: string)
    requires !IsSpace(close)
    ensures var hit := Pair(s, open, close, replacement);
      && (hit.Some? ==> 0 < hit.value.len <= |s| && hit.value.replacement == replacement && Enclosed(open, close, s[..hit.value.len]))
      && forall n :: 0 < n <= |s| && Enclosed(open, close, s[..n]) ==> hit == Some(Match(n, replacement))
  {
    forall n | 0 < n <= |s| && Enclosed(open, close, s[..n]) ensures Pair(s, open, close, replacement) == Some(Match(n, replacement)) {
      PairLength(s, open, close, replacement, n);
    }
    if Pair(s, open, close, replacement).Some? {
      var i := 1 + SpaceLen(s[1..]);
      assert AllSpace(s[1..i]) && s[..i + 1] == [open] + s[1..i] + [close];
    }
  }

  lemma OpensFind(s: string)
    ensures Finds(DoubleOpen, OpenOpen, ToOpen, s)
  {
    hide Pair, Enclosed;
    PairFinds(s, '[', '[', "[");
    forall x ensures OpenOpen(x) <==> Enclosed('[', '[', x) {
      OpenOpenIff(x);
    }
    hide OpenOpen;
  }

  lemma OpenOpenIff(x: string)
    ensures OpenOpen(x) <==> Enclosed('[', '[', x)
  {
  }

  lemma ClosesFind(s: string)
    ensures Finds(DoubleClose, CloseClose, ToClose, s)
  {
    hide Pair, Enclosed;
    PairFinds(s, ']', ']', "]");
    forall x ensures CloseClose(x) <==> Enclosed(']', ']', x) {
      CloseCloseIff(x);
    }
    hide CloseClose;
  }

  lemma CloseCloseIff(x: string)
    ensures CloseClose(x) <==> Enclosed(']', ']', x)
  {
  }

  lemma EmptyFind(s: string)
    ensures Finds(EmptyBrackets, OpenClose, ToNothing, s)
  {
    hide Pair, Enclosed;
    PairFinds(s, '[', ']', "");
    forall x ensures OpenClose(x) <==> Enclosed('[', ']', x) {
      OpenCloseIff(x);
    }
    hide OpenClose;
  }

  lemma OpenCloseIff(x: string)
    ensures OpenClose(x) <==> Enclosed('[', ']', x)
  {
  }

  lemma SpaceLength(s: string, n: nat)
    requires n <= |s| && SpaceAtBracket(s[..n])
    ensures SpaceInside(s).Some? && n <= SpaceInside(s).value.len
  {
    var a :| AllSpace(a) && a != "" && (s[..n] == "[" + a || s[..n] == a + "]");
    if s[..n] == "[" + a {
      assert s[..n][1..] == a && s[1..][..|a|] == s[..n][1..];
      assert SpaceLen(s[1..]) >= |a|;
    } else {
      assert s[..|a|] == a && s[|a|] == ']';
      assert SpaceLen(s) == |a|;
    }
  }

  lemma SpaceFinds(s: string)
    ensures Finds(SpaceInside, SpaceAtBracket, ToBracket, s)
  {
    forall n | 0 < n <= |s| && SpaceAtBracket(s[..n]) ensures SpaceInside(s).Some? && n <= SpaceInside(s).value.len {
      SpaceLength(s, n);
    }
    if At(s, 0, '[') && SpaceLen(s[1..]) > 0 {
      var a := s[1..][..SpaceLen(s[1..])];
      assert AllSpace(a) && s[..1 + |a|] == "[" + a;
    } else if SpaceLen(s) > 0 && At(s, SpaceLen(s), ']') {
      var a := s[..SpaceLen(s)];
      assert AllSpace(a) && s[..|a| + 1] == a + "]";
      assert '[' !in a + "]";
    }
  }

  lemma BlanksFind(s: string)
    ensures Finds(ManyBlanks, TwoBlanks, ToBlank, s)
  {
    var k := BlankLen(s);
    forall n | k < n <= |s| ensures !TwoBlanks(s[..n]) {
      assert s[..n][k] == s[k];
    }
  }

  lemma CollapseCleansUp(s: string)
    ensures CleanedUp(s, Collapse(s))
  {
    hide Finds, CommasBetweenIds, DoubleOpen, DoubleClose, EmptyBrackets, SpaceInside, ManyBlanks;
    hide CommaBetween, OpenOpen, CloseClose, OpenClose, SpaceAtBracket, TwoBlanks;
    forall r: string ensures Finds(CommasBetweenIds, CommaBetween, ToCloseOpen, r) { CommasFind(r); }
    forall r: string ensures Finds(DoubleOpen, OpenOpen, ToOpen, r) { OpensFind(r); }
    forall r: string ensures Finds(DoubleClose, CloseClose, ToClose, r) { ClosesFind(r); }
    forall r: string ensures Finds(EmptyBrackets, OpenClose, ToNothing, r) { EmptyFind(r); }
    forall r: string ensures Finds(SpaceInside, SpaceAtBracket, ToBracket, r) { SpaceFinds(r); }
    forall r: string ensures Finds(ManyBlanks, TwoBlanks, ToBlank, r) { BlanksFind(r); }
    var t1 := Substitute(CommasBetweenIds, s);
    var t2 := Substitute(DoubleOpen, t1);
    var t3 := Substitute(DoubleClose, t2);
    var t4 := Substitute(EmptyBrackets, t3);
    var t5 := Substitute(SpaceInside, t4);
    var p1 := SubstituteSearches(CommasBetweenIds, CommaBetween, ToCloseOpen, s);
    var p2 := SubstituteSearches(DoubleOpen, OpenOpen, ToOpen, t1);
    var p3 := SubstituteSearches(DoubleClose, CloseClose, ToClose, t2);
    var p4 := SubstituteSearches(EmptyBrackets, OpenClose, ToNothing, t3);
    var p5 := SubstituteSearches(SpaceInside, SpaceAtBracket, ToBracket, t4);
    var p6 := SubstituteSearches(ManyBlanks, TwoBlanks, ToBlank, t5);
    assert IsSub(CommaBetween, ToCloseOpen, s, t1) && IsSub(OpenOpen, ToOpen, t1, t2);
    assert IsSub(CloseClose, ToClose, t2, t3) && IsSub(OpenClose, ToNothing, t3, t4);
    assert IsSub(SpaceAtBracket, ToBracket, t4, t5) && IsSub(TwoBlanks, ToBlank, t5, Collapse(s));
  }

  lemma RewrittenIsRewrite(text: string, resolver: Resolver)
    ensures IsRewrite(text, resolver, Rewritten(text, resolver))
  {
    hide CleanedUp, Collapse, Cited;
    PiecesAreSearch(text);
    JoinedIsReplaced(Pieces(text), resolver);
    CollapseCleansUp(Joined(Pieces(text), resolver));
  }

  // ---------------------------------------------------------------------
  // _rewrite_text
  // ---------------------------------------------------------------------

  lemma EmptyRewrites(resolver: Resolver)
    ensures Rewritten("", resolver) == ""
  {
  }

  /** What finditer contributes at the front of a text. */
  lemma JoinedStep(text: string, resolver: Resolver)
    requires text != ""
    ensures var n := HexLen(text, MAX_RUN);
      Joined(Pieces(text), resolver) ==
        if n >= MIN_RUN then Render(Run(text[..n]), resolver) + Joined(Pieces(text[n..]), resolver)
        else [text[0]] + Joined(Pieces(text[1..]), resolver)
  {
  }

  /** The text not yet emitted: carried characters, then the rest with its runs rendered. */
  ghost predicate Pending(all: string, out: string, text: string, last: nat, pos: nat, resolver: Resolver)
    requires last <= pos <= |text|
  {
    all == out + text[last..pos] + Joined(Pieces(text[pos..]), resolver)
  }

  lemma RunEmitted(all: string, out: string, text: string, last: nat, pos: nat, resolver: Resolver, n: nat)
    requires last <= pos < |text| && n == HexLen(text[pos..], MAX_RUN) >= MIN_RUN
    requires Pending(all, out, text, last, pos, resolver)
    ensures Pending(all, out + text[last..pos] + Render(Run(text[pos..pos + n]), resolver), text, pos + n, pos + n, resolver)
  {
    hide Pieces, Joined, Render, HexLen;
    JoinedStep(text[pos..], resolver);
    assert text[pos..][n..] == text[pos + n..];
    assert text[pos..][..n] == text[pos..pos + n];
    assert text[pos + n..pos + n] == "";
  }

  lemma PlainCarried(all: string, out: string, text: string, last: nat, pos: nat, resolver: Resolver)
    requires last <= pos < |text| && HexLen(text[pos..], MAX_RUN) < MIN_RUN
    requires Pending(all, out, text, last, pos, resolver)
    ensures Pending(all, out, text, last, pos + 1, resolver)
  {
  }

  lemma AllEmitted(all: string, out: string, text: string, last: nat, resolver: Resolver)
    requires last <= |text| && Pending(all, out, text, last, |text|, resolver)
    ensures all == out + text[last..]
  {
  }

  method RewriteText(text: string, resolver: Resolver) returns (out: string)
    ensures IsRewrite(text, resolver, out)
    ensures out == Rewritten(text, resolver)
  {
    RewrittenIsRewrite(text, resolver);
    hide IsRewrite, Pieces, Joined, Render, Collapse, HexLen, Pending;
    if text == "" {
      EmptyRewrites(resolver);
      return text;
    }
    out := "";
    var last, pos := 0, 0;
    ghost var all := Joined(Pieces(text), resolver);
    NothingEmitted(text, resolver);
    while pos < |text|
      invariant 0 <= last <= pos <= |text|
      invariant Pending(all, out, text, last, pos, resolver)
    {
      var n := HexLen(text[pos..], MAX_RUN);
      if n >= MIN_RUN {
        RunEmitted(all, out, text, last, pos, resolver, n);
        out := out + text[last..pos];
        out := out + Render(Run(text[pos..pos + n]), resolver);
        pos := pos + n;
        last := pos;
      } else {
        PlainCarried(all, out, text, last, pos, resolver);
        pos := pos + 1;
      }
    }
    AllEmitted(all, out, text, last, resolver);
    out := out + text[last..];
    out := Collapse(out);
  }

  lemma NothingEmitted(text: string, resolver: Resolver)
    ensures Pending(Joined(Pieces(text), resolver), "", text, 0, 0, resolver)
  {
  }
}
