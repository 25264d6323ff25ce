/**
 What citation rewriting keeps.  A rewritten text is a weave: gaps of carried text
 with a block [full-id] after each.  Every collapse step turns a weave into a weave
 with the same ids whose gaps differ in brackets, commas and whitespace only.
 */
module CitationTheorems {
  import opened Options
  import opened Strings
  import opened Citations
  import opened Search

  /** A citation and the text that follows it. */
  datatype Block = Block(id: string, gap: string)

  function Flat(head: string, tail: seq<Block>): string
    decreases |tail|
  {
    if tail == [] then head else head + "[" + tail[0].id + "]" + Flat(tail[0].gap, tail[1..])
  }

  /** Ids are non-empty and free of the characters the collapse may touch. */
  ghost predicate HardIds(tail: seq<Block>) {
    forall i :: 0 <= i < |tail| ==> tail[i].id != "" && NoSoft(tail[i].id)
  }

  /** Same ids in the same order, gaps equal after stripping. */
  ghost predicate SameWeave(head: string, tail: seq<Block>, head': string, tail': seq<Block>) {
    && Strip(head') == Strip(head)
    && |tail'| == |tail|
    && (forall i :: 0 <= i < |tail| ==> tail'[i].id == tail[i].id && Strip(tail'[i].gap) == Strip(tail[i].gap))
  }

  lemma {:induction false} StripAppend(a: string, b: string)
    ensures Strip(a + b) == Strip(a) + Strip(b)
  {
    if a == "" {
      assert a + b == b;
    } else {
      assert (a + b)[1..] == a[1..] + b;
      StripAppend(a[1..], b);
    }
  }

  lemma {:induction false} StripSoft(s: string)
    requires AllSoft(s)
    ensures Strip(s) == ""
  {
    if s != "" {
      StripSoft(s[1..]);
    }
  }

  lemma {:induction false} StripHard(s: string)
    requires NoSoft(s)
    ensures Strip(s) == s
  {
    if s != "" {
      StripHard(s[1..]);
      assert s == [s[0]] + s[1..];
    }
  }

  // ---------------------------------------------------------------------
  // The six substitutions are of one kind
  // ---------------------------------------------------------------------

  /**
   A match replaces soft characters by soft characters, and puts back an opening
   bracket it ends with and a closing bracket it begins with.
   */
  ghost predicate GoodMatch(s: string, hit: Match) {
    var n, v := hit.len, hit.replacement;
    && 2 <= n <= |s| && (forall i :: 0 <= i < n ==> IsSoft(s[i])) && AllSoft(v)
    && (s[n - 1] == '[' ==> v != "" && v[|v| - 1] == '[')
    && (s[0] == ']' ==> v != "" && v[0] == ']')
    && (s[0] == ']' && s[n - 1] == '[' ==> |v| >= 2)
  }

  ghost predicate Protecting(m: Matcher) {
    forall s: string :: m(s).Some? ==> GoodMatch(s, m(s).value)
  }

  lemma CommasProtect()
    ensures Protecting(CommasBetweenIds)
  {
  }

  lemma PairsProtect()
    ensures Protecting(DoubleOpen) && Protecting(DoubleClose) && Protecting(EmptyBrackets)
  {
  }

  lemma SpacesProtect()
    ensures Protecting(SpaceInside) && Protecting(ManyBlanks)
  {
  }

  // ---------------------------------------------------------------------
  // A substitution of that kind keeps the weave
  // ---------------------------------------------------------------------

  lemma NoMatchAtHard(m: Matcher, s: string)
    requires Protecting(m) && s != "" && !IsSoft(s[0])
    ensures m(s).None?
  {
  }

  lemma {:induction false} SubstituteHard(m: Matcher, id: string, rest: string)
    requires Protecting(m) && NoSoft(id)
    ensures Substitute(m, id + rest) == id + Substitute(m, rest)
  {
    if id == "" {
      assert id + rest == rest;
    } else {
      var s := id + rest;
      assert s[1..] == id[1..] + rest;
      NoMatchAtHard(m, s);
      SubstituteHard(m, id[1..], rest);
      assert Substitute(m, s) == [id[0]] + Substitute(m, id[1..] + rest);
      assert id == [id[0]] + id[1..];
    }
  }

  /** The text after the opening bracket of a block. */
  function AfterOpen(tail: seq<Block>): string
    requires tail != []
  {
    tail[0].id + ("]" + Flat(tail[0].gap, tail[1..]))
  }

  lemma FlatOpen(head: string, tail: seq<Block>)
    requires tail != []
    ensures Flat(head, tail) == head + "[" + AfterOpen(tail)
  {
  }

  /** A match that starts in a gap ends in it, or at the opening bracket of the next block. */
  lemma MatchReach(m: Matcher, s: string, head: string, tail: seq<Block>)
    requires Protecting(m) && HardIds(tail) && s == Flat(head, tail) && m(s).Some?
    ensures m(s).value.len <= |head| ||
      (tail != [] && m(s).value.len == |head| + 1 && s[|head|] == '[')
  {
    var n := m(s).value.len;
    assert GoodMatch(s, m(s).value);
    if tail != [] {
      FlatOpen(head, tail);
      assert s[|head|] == '[' && s[|head| + 1] == tail[0].id[0];
    }
  }

  /** As MatchReach, from a closing bracket. */
  lemma MatchReachClose(m: Matcher, s: string, gap: string, tail: seq<Block>)
    requires Protecting(m) && HardIds(tail) && s == "]" + Flat(gap, tail) && m(s).Some?
    ensures m(s).value.len - 1 <= |gap| ||
      (tail != [] && m(s).value.len == |gap| + 2 && s[|gap| + 1] == '[')
  {
    var n := m(s).value.len;
    assert GoodMatch(s, m(s).value);
    if tail != [] {
      FlatOpen(gap, tail);
      assert s[|gap| + 1] == '[' && s[|gap| + 2] == tail[0].id[0];
    }
  }

  lemma FlatDrop(head: string, tail: seq<Block>, n: nat)
    requires n <= |head|
    ensures Flat(head, tail)[n..] == Flat(head[n..], tail)
    ensures Flat(head, tail)[..n] == head[..n]
  {
  }

  lemma FlatAppend(a: string, head: string, tail: seq<Block>)
    ensures a + Flat(head, tail) == Flat(a + head, tail)
  {
  }

  /** The rest of a weave from inside its first block: the block survives. */
  lemma {:induction false} SubstituteBlock(m: Matcher, tail: seq<Block>) returns (tail': seq<Block>)
    requires Protecting(m) && HardIds(tail) && tail != []
    ensures tail' != [] && Substitute(m, AfterOpen(tail)) == AfterOpen(tail')
    ensures SameWeave("", tail, "", tail')
    decreases |tail|, 0, 0
  {
    var rest := tail[1..];
    assert HardIds(rest);
    SubstituteHard(m, tail[0].id, "]" + Flat(tail[0].gap, rest));
    var gap', rest' := SubstituteClose(m, tail[0].gap, rest);
    tail' := [Block(tail[0].id, gap')] + rest';
    assert tail'[1..] == rest';
    forall i | 0 <= i < |tail| ensures tail'[i].id == tail[i].id && Strip(tail'[i].gap) == Strip(tail[i].gap) {
      if i > 0 {
        assert tail'[i] == rest'[i - 1] && tail[i] == rest[i - 1];
      }
    }
  }

  lemma GapStrip(u: string, rest: string, v: string, rest': string)
    requires AllSoft(u) && AllSoft(v) && Strip(rest') == Strip(rest)
    ensures Strip(v + rest') == Strip(u + rest)
  {
    StripAppend(u, rest);
    StripAppend(v, rest');
    StripSoft(u);
    StripSoft(v);
  }

  /** Cutting the soft front u off a gap and putting the soft v in its place. */
  lemma GapReplaced(u: string, gap: string, v: string, rest: string, tail: seq<Block>, tail': seq<Block>)
    requires AllSoft(u) && AllSoft(v) && SameWeave(gap, tail, rest, tail')
    ensures SameWeave(u + gap, tail, v + rest, tail')
    ensures v + Flat(rest, tail') == Flat(v + rest, tail')
  {
    GapStrip(u, gap, v, rest);
    FlatAppend(v, rest, tail');
  }

  /** A soft gap before a block replaced by another, the rest already done. */
  lemma GapJoined(gap: string, mid: string, tail: seq<Block>, tail': seq<Block>)
    requires AllSoft(gap) && AllSoft(mid) && tail != [] && tail' != [] && SameWeave("", tail, "", tail')
    ensures SameWeave(gap, tail, mid, tail')
    ensures mid + "[" + AfterOpen(tail') == Flat(mid, tail')
  {
    StripSoft(gap);
    StripSoft(mid);
    FlatOpen(mid, tail');
  }

  /** From the closing bracket of a block: the bracket survives. */
  lemma {:induction false} SubstituteClose(m: Matcher, gap: string, tail: seq<Block>)
      returns (gap': string, tail': seq<Block>)
    requires Protecting(m) && HardIds(tail)
    ensures Substitute(m, "]" + Flat(gap, tail)) == "]" + Flat(gap', tail')
    ensures SameWeave(gap, tail, gap', tail')
    decreases |tail|, |gap| + 1, 1
  {
    var s := "]" + Flat(gap, tail);
    if m(s).None? {
      gap', tail' := SubstituteGap(m, gap, tail);
      assert s[1..] == Flat(gap, tail);
    } else {
      MatchReachClose(m, s, gap, tail);
      if m(s).value.len - 1 <= |gap| {
        gap', tail' := CloseThenGap(m, gap, tail);
      } else {
        gap', tail' := CloseToOpen(m, gap, tail);
      }
    }
  }

  /** A match from the closing bracket into the gap. */
  lemma {:induction false} CloseThenGap(m: Matcher, gap: string, tail: seq<Block>)
      returns (gap': string, tail': seq<Block>)
    requires Protecting(m) && HardIds(tail)
    requires var s := "]" + Flat(gap, tail); m(s).Some? && m(s).value.len - 1 <= |gap|
    ensures Substitute(m, "]" + Flat(gap, tail)) == "]" + Flat(gap', tail')
    ensures SameWeave(gap, tail, gap', tail')
    decreases |tail|, |gap| + 1, 0
  {
    var s := "]" + Flat(gap, tail);
    var n, v := m(s).value.len, m(s).value.replacement;
    MatchFromClose(m, s, gap, tail);
    SubstituteMatch(m, s);
    hide Protecting, GoodMatch, HardIds, SameWeave, Flat, Substitute, AllSoft;
    var g, t := SubstituteGap(m, gap[n - 1..], tail);
    var u, v' := gap[..n - 1], v[1..];
    GapReplaced(u, gap[n - 1..], v', g, tail, t);
    assert gap == u + gap[n - 1..];
    gap', tail' := v' + g, t;
    FrontKept(v, Flat(g, t));
  }

  lemma FrontKept(v: string, rest: string)
    requires v != "" && v[0] == ']'
    ensures v + rest == "]" + (v[1..] + rest)
  {
  }

  /** What a match from a closing bracket into the gap covers, and what is left after it. */
  lemma MatchFromClose(m: Matcher, s: string, gap: string, tail: seq<Block>)
    requires Protecting(m) && s == "]" + Flat(gap, tail) && m(s).Some? && m(s).value.len - 1 <= |gap|
    ensures 2 <= m(s).value.len <= |s|
    ensures AllSoft(gap[..m(s).value.len - 1]) && AllSoft(m(s).value.replacement)
    ensures m(s).value.replacement != "" && m(s).value.replacement[0] == ']'
    ensures s[m(s).value.len..] == Flat(gap[m(s).value.len - 1..], tail)
  {
    var n := m(s).value.len;
    assert GoodMatch(s, m(s).value);
    hide Protecting;
    FlatDrop(gap, tail, n - 1);
    assert s[n..] == Flat(gap, tail)[n - 1..];
    var u := gap[..n - 1];
    forall k | 0 <= k < |u| ensures IsSoft(u[k]) {
      assert u[k] == Flat(gap, tail)[..n - 1][k] == s[k + 1];
    }
  }

  lemma AcrossGap(s: string, gap: string, rest: string)
    requires s == "]" + (gap + "[" + rest)
    ensures |s| >= |gap| + 2 && s[0] == ']' && s[|gap| + 1] == '[' && s[|gap| + 2..] == rest
    ensures forall k :: 0 <= k < |gap| ==> gap[k] == s[k + 1]
  {
  }

  lemma BetweenBrackets(v: string) returns (mid: string)
    requires |v| >= 2 && v[0] == ']' && v[|v| - 1] == '[' && AllSoft(v)
    ensures v == "]" + mid + "[" && AllSoft(mid)
  {
    mid := v[1..|v| - 1];
    assert forall k :: 0 <= k < |mid| ==> mid[k] == v[k + 1];
  }

  lemma SoftInside(s: string, gap: string, n: nat)
    requires n <= |s| && (forall i :: 0 <= i < n ==> IsSoft(s[i])) && |gap| + 1 < n
    requires forall k :: 0 <= k < |gap| ==> gap[k] == s[k + 1]
    ensures AllSoft(gap)
  {
  }

  lemma AcrossFacts(s: string, hit: Match, gap: string, rest: string) returns (mid: string)
    requires GoodMatch(s, hit) && hit.len == |gap| + 2 && s == "]" + (gap + "[" + rest)
    ensures AllSoft(gap) && AllSoft(mid) && hit.replacement == "]" + mid + "["
    ensures hit.len <= |s| && s[hit.len..] == rest
  {
    hide IsSoft;
    AcrossGap(s, gap, rest);
    SoftInside(s, gap, hit.len);
    mid := BetweenBrackets(hit.replacement);
  }

  /** What a match from a closing bracket to the next opening one covers, and what is left after it. */
  lemma MatchAcross(m: Matcher, s: string, gap: string, tail: seq<Block>) returns (mid: string)
    requires Protecting(m) && tail != [] && s == "]" + Flat(gap, tail)
    requires m(s).Some? && m(s).value.len == |gap| + 2
    ensures AllSoft(gap) && AllSoft(mid) && m(s).value.replacement == "]" + mid + "["
    ensures m(s).value.len <= |s| && s[m(s).value.len..] == AfterOpen(tail)
  {
    assert GoodMatch(s, m(s).value);
    hide Protecting, GoodMatch, AllSoft, AfterOpen;
    FlatOpen(gap, tail);
    mid := AcrossFacts(s, m(s).value, gap, AfterOpen(tail));
  }

  lemma SubstituteMatch(m: Matcher, s: string)
    requires m(s).Some? && 0 < m(s).value.len <= |s|
    ensures Substitute(m, s) == m(s).value.replacement + Substitute(m, s[m(s).value.len..])
  {
  }

  /** A match from a closing bracket to the next opening one. */
  lemma {:induction false} CloseToOpen(m: Matcher, gap: string, tail: seq<Block>)
      returns (gap': string, tail': seq<Block>)
    requires Protecting(m) && HardIds(tail) && tail != []
    requires var s := "]" + Flat(gap, tail); m(s).Some? && m(s).value.len == |gap| + 2 && s[|gap| + 1] == '['
    ensures Substitute(m, "]" + Flat(gap, tail)) == "]" + Flat(gap', tail')
    ensures SameWeave(gap, tail, gap', tail')
    decreases |tail|, 0, 1
  {
    var s := "]" + Flat(gap, tail);
    hide Protecting, GoodMatch, HardIds, SameWeave, AfterOpen, Flat, Substitute, AllSoft;
    gap' := MatchAcross(m, s, gap, tail);
    SubstituteMatch(m, s);
    tail' := SubstituteBlock(m, tail);
    GapJoined(gap, gap', tail, tail');
    calc {
      Substitute(m, s);
      "]" + gap' + "[" + AfterOpen(tail');
      "]" + (gap' + "[" + AfterOpen(tail'));
    }
  }

  /** From inside a gap. */
  lemma {:induction false} SubstituteGap(m: Matcher, head: string, tail: seq<Block>)
      returns (head': string, tail': seq<Block>)
    requires Protecting(m) && HardIds(tail)
    ensures Substitute(m, Flat(head, tail)) == Flat(head', tail')
    ensures SameWeave(head, tail, head', tail')
    decreases |tail|, |head| + 1, 0
  {
    var s := Flat(head, tail);
    if head == "" && tail == [] {
      head', tail' := "", [];
    } else if m(s).Some? {
      MatchReach(m, s, head, tail);
      if m(s).value.len <= |head| {
        head', tail' := MatchInGap(m, head, tail);
      } else {
        head', tail' := GapToOpen(m, head, tail);
      }
    } else if head == "" {
      head', tail' := SubstituteOpen(m, tail);
    } else {
      FlatDrop(head, tail, 1);
      var h, t := SubstituteGap(m, head[1..], tail);
      head', tail' := [head[0]] + h, t;
      assert s[0] == head[0] by { assert s[..1][0] == head[..1][0]; }
      FlatAppend([head[0]], h, t);
      StripAppend([head[0]], h);
      StripAppend([head[0]], head[1..]);
      assert head == [head[0]] + head[1..];
    }
  }

  lemma {:induction false} MatchInGap(m: Matcher, head: string, tail: seq<Block>)
      returns (head': string, tail': seq<Block>)
    requires Protecting(m) && HardIds(tail)
    requires m(Flat(head, tail)).Some? && m(Flat(head, tail)).value.len <= |head|
    ensures Substitute(m, Flat(head, tail)) == Flat(head', tail')
    ensures SameWeave(head, tail, head', tail')
    decreases |tail|, |head|, 1
  {
    var s := Flat(head, tail);
    var n, v := m(s).value.len, m(s).value.replacement;
    assert GoodMatch(s, m(s).value);
    FlatDrop(head, tail, n);
    var h, t := SubstituteGap(m, head[n..], tail);
    var u := head[..n];
    forall k | 0 <= k < |u| ensures IsSoft(u[k]) {
      assert u[k] == s[..n][k] == s[k];
    }
    GapReplaced(u, head[n..], v, h, tail, t);
    assert head == u + head[n..];
    head', tail' := v + h, t;
  }

  lemma {:induction false} GapToOpen(m: Matcher, head: string, tail: seq<Block>)
      returns (head': string, tail': seq<Block>)
    requires Protecting(m) && HardIds(tail) && tail != []
    requires var s := Flat(head, tail); m(s).Some? && m(s).value.len == |head| + 1 && s[|head|] == '['
    ensures Substitute(m, Flat(head, tail)) == Flat(head', tail')
    ensures SameWeave(head, tail, head', tail')
    decreases |tail|, 0, 1
  {
    var s := Flat(head, tail);
    var n, v := m(s).value.len, m(s).value.replacement;
    assert GoodMatch(s, m(s).value);
    FlatOpen(head, tail);
    assert s[n..] == AfterOpen(tail);
    tail' := SubstituteBlock(m, tail);
    head' := v[..|v| - 1];
    assert v == head' + "[";
    assert forall k :: 0 <= k < |head| ==> head[k] == s[k];
    GapJoined(head, head', tail, tail');
  }

  /** At the opening bracket of a block: no match starts there. */
  lemma {:induction false} SubstituteOpen(m: Matcher, tail: seq<Block>) returns (head': string, tail': seq<Block>)
    requires Protecting(m) && HardIds(tail) && tail != [] && m(Flat("", tail)).None?
    ensures Substitute(m, Flat("", tail)) == Flat(head', tail')
    ensures SameWeave("", tail, head', tail')
    decreases |tail|, 0, 1
  {
    var s := Flat("", tail);
    FlatOpen("", tail);
    assert s[1..] == AfterOpen(tail) && s[0] == '[';
    head' := "";
    tail' := SubstituteBlock(m, tail);
    FlatOpen("", tail');
  }

  lemma SubstituteKeepsWeave(m: Matcher, head: string, tail: seq<Block>) returns (head': string, tail': seq<Block>)
    requires Protecting(m) && HardIds(tail)
    ensures Substitute(m, Flat(head, tail)) == Flat(head', tail')
    ensures SameWeave(head, tail, head', tail') && HardIds(tail')
  {
    head', tail' := SubstituteGap(m, head, tail);
    forall i | 0 <= i < |tail'| ensures tail'[i].id != "" && NoSoft(tail'[i].id) {
      assert tail'[i].id == tail[i].id;
    }
  }

  lemma SameWeaveTrans(h0: string, t0: seq<Block>, h1: string, t1: seq<Block>, h2: string, t2: seq<Block>)
    requires SameWeave(h0, t0, h1, t1) && SameWeave(h1, t1, h2, t2)
    ensures SameWeave(h0, t0, h2, t2)
  {
  }

  /** The six steps of the collapse, one after the other. */
  lemma CollapseKeepsWeave(head: string, tail: seq<Block>) returns (head': string, tail': seq<Block>)
    requires HardIds(tail)
    ensures Collapse(Flat(head, tail)) == Flat(head', tail')
    ensures SameWeave(head, tail, head', tail')
  {
    hide Substitute, Flat, SameWeave, HardIds, CommasBetweenIds, Pair, DoubleOpen, DoubleClose, EmptyBrackets,
      SpaceInside, ManyBlanks, Protecting;
    CommasProtect();
    PairsProtect();
    SpacesProtect();
    var h1, t1 := SubstituteKeepsWeave(CommasBetweenIds, head, tail);
    var h2, t2 := SubstituteKeepsWeave(DoubleOpen, h1, t1);
    var h3, t3 := SubstituteKeepsWeave(DoubleClose, h2, t2);
    var h4, t4 := SubstituteKeepsWeave(EmptyBrackets, h3, t3);
    var h5, t5 := SubstituteKeepsWeave(SpaceInside, h4, t4);
    head', tail' := SubstituteKeepsWeave(ManyBlanks, h5, t5);
    SameWeaveTrans(head, tail, h1, t1, h2, t2);
    SameWeaveTrans(head, tail, h2, t2, h3, t3);
    SameWeaveTrans(head, tail, h3, t3, h4, t4);
    SameWeaveTrans(head, tail, h4, t4, h5, t5);
    SameWeaveTrans(head, tail, h5, t5, head', tail');
  }

  // ---------------------------------------------------------------------
  // The input as a weave
  // ---------------------------------------------------------------------

  /** Every resolved entry is a full id. */
  ghost predicate GoodResolver(resolver: Resolver) {
    forall k :: k in resolver && resolver[k].Some? ==> IsId(resolver[k].value)
  }

  /** The text before the first resolved run. */
  function HeadOf(pieces: seq<Piece>, resolver: Resolver): string {
    if pieces == [] then ""
    else
      match pieces[0]
      case Plain(c) => [c] + HeadOf(pieces[1..], resolver)
      case Run(hex) => if Target(hex, resolver).Some? then "" else hex + HeadOf(pieces[1..], resolver)
  }

  /** Each resolved run with the text after it. */
  function CitationsOf(pieces: seq<Piece>, resolver: Resolver): seq<Block> {
    if pieces == [] then []
    else if pieces[0].Run? && Target(pieces[0].hex, resolver).Some? then
      [Block(Target(pieces[0].hex, resolver).value, HeadOf(pieces[1..], resolver))] +
      CitationsOf(pieces[1..], resolver)
    else CitationsOf(pieces[1..], resolver)
  }

  lemma {:induction false} JoinedIsWeave(pieces: seq<Piece>, resolver: Resolver)
    requires GoodResolver(resolver)
    ensures Joined(pieces, resolver) == Flat(HeadOf(pieces, resolver), CitationsOf(pieces, resolver))
    ensures HardIds(CitationsOf(pieces, resolver))
  {
    if pieces != [] {
      var rest := pieces[1..];
      JoinedIsWeave(rest, resolver);
      var h, t := HeadOf(rest, resolver), CitationsOf(rest, resolver);
      match pieces[0]
      case Plain(c) => FlatAppend([c], h, t);
      case Run(hex) =>
        if Target(hex, resolver).Some? {
          var id := Target(hex, resolver).value;
          var tail := CitationsOf(pieces, resolver);
          assert IsId(id);
          assert tail[0] == Block(id, h) && tail[1..] == t;
          FlatOpen("", tail);
          assert "[" + id + "]" + Flat(h, t) == "[" + (id + ("]" + Flat(h, t)));
        } else {
          FlatAppend(hex, h, t);
        }
    }
  }

  /** The ids cited in a text, run by run. */
  function CitedIds(pieces: seq<Piece>, resolver: Resolver): seq<string> {
    if pieces == [] then []
    else
      (if pieces[0].Run? && Target(pieces[0].hex, resolver).Some? then [Target(pieces[0].hex, resolver).value] else [])
      + CitedIds(pieces[1..], resolver)
  }

  /** The text with each resolved run replaced by its bare id, nothing else changed. */
  function Expanded(pieces: seq<Piece>, resolver: Resolver): string {
    if pieces == [] then ""
    else
      (match pieces[0]
       case Plain(c) => [c]
       case Run(hex) => if Target(hex, resolver).Some? then Target(hex, resolver).value else hex)
      + Expanded(pieces[1..], resolver)
  }

  lemma {:induction false} CitedInOrder(pieces: seq<Piece>, resolver: Resolver)
    ensures |CitationsOf(pieces, resolver)| == |CitedIds(pieces, resolver)|
    ensures forall i :: 0 <= i < |CitedIds(pieces, resolver)| ==>
      CitationsOf(pieces, resolver)[i].id == CitedIds(pieces, resolver)[i]
  {
    hide Target, HeadOf;
    if pieces != [] {
      CitedInOrder(pieces[1..], resolver);
      var c, ids := CitationsOf(pieces[1..], resolver), CitedIds(pieces[1..], resolver);
      if pieces[0].Run? && Target(pieces[0].hex, resolver).Some? {
        var id := Target(pieces[0].hex, resolver).value;
        assert CitedIds(pieces, resolver) == [id] + ids;
        assert CitationsOf(pieces, resolver) == [Block(id, HeadOf(pieces[1..], resolver))] + c;
      } else {
        assert CitedIds(pieces, resolver) == ids && CitationsOf(pieces, resolver) == c;
      }
    }
  }

  /** What remains of a weave without brackets, commas and whitespace. */
  lemma {:induction false} StripOfWeave(head: string, tail: seq<Block>, head': string, tail': seq<Block>)
    requires SameWeave(head, tail, head', tail')
    ensures Strip(Flat(head', tail')) == Strip(Flat(head, tail))
    decreases |tail|
  {
    if tail != [] {
      var b, b' := tail[0], tail'[0];
      var f, f' := Flat(b.gap, tail[1..]), Flat(b'.gap, tail'[1..]);
      assert SameWeave(b.gap, tail[1..], b'.gap, tail'[1..]) by {
        forall i | 0 <= i < |tail[1..]|
          ensures tail'[1..][i].id == tail[1..][i].id && Strip(tail'[1..][i].gap) == Strip(tail[1..][i].gap)
        {
          assert tail[1..][i] == tail[i + 1] && tail'[1..][i] == tail'[i + 1];
        }
      }
      StripOfWeave(b.gap, tail[1..], b'.gap, tail'[1..]);
      StripBlock(head, b.id, f);
      StripBlock(head', b'.id, f');
    }
  }

  lemma StripBlock(head: string, id: string, rest: string)
    ensures Strip(head + "[" + id + "]" + rest) == Strip(head) + Strip(id) + Strip(rest)
  {
    hide Strip;
    assert AllSoft("[") && AllSoft("]");
    StripSoft("[");
    StripSoft("]");
    hide AllSoft;
    StripAppend(head, "[");
    StripAppend(head + "[", id);
    StripAppend(head + "[" + id, "]");
    StripAppend(head + "[" + id + "]", rest);
  }

  lemma {:induction false} StripOfJoined(pieces: seq<Piece>, resolver: Resolver)
    ensures Strip(Joined(pieces, resolver)) == Strip(Expanded(pieces, resolver))
  {
    if pieces != [] {
      StripOfJoined(pieces[1..], resolver);
      var j, e := Joined(pieces[1..], resolver), Expanded(pieces[1..], resolver);
      match pieces[0]
      case Plain(c) =>
        StripAppend([c], j);
        StripAppend([c], e);
      case Run(hex) =>
        if Target(hex, resolver).Some? {
          var id := Target(hex, resolver).value;
          StripBlock("", id, j);
          assert "" + "[" + id + "]" + j == Render(pieces[0], resolver) + j;
          StripAppend(id, e);
        } else {
          StripAppend(hex, j);
          StripAppend(hex, e);
        }
    }
  }

  /**
   Rewriting preserves meaning.  The output is a weave of the resolved ids, in
   their order and each in its own brackets, and every stretch of text between
   two of them is the input's, up to brackets, commas and whitespace.
   */
  lemma RewriteKeepsCitations(text: string, resolver: Resolver) returns (head: string, tail: seq<Block>)
    requires GoodResolver(resolver)
    ensures Rewritten(text, resolver) == Flat(head, tail)
    ensures SameWeave(HeadOf(Pieces(text), resolver), CitationsOf(Pieces(text), resolver), head, tail)
    ensures |tail| == |CitedIds(Pieces(text), resolver)|
    ensures forall i :: 0 <= i < |tail| ==> tail[i].id == CitedIds(Pieces(text), resolver)[i]
  {
    var pieces := Pieces(text);
    JoinedIsWeave(pieces, resolver);
    CitedInOrder(pieces, resolver);
    head, tail := CollapseKeepsWeave(HeadOf(pieces, resolver), CitationsOf(pieces, resolver));
  }

  /**
   Deleting brackets, commas and whitespace from the output leaves what it leaves
   of the input with each resolved run replaced by its full id.
   */
  lemma RewriteKeepsText(text: string, resolver: Resolver)
    requires GoodResolver(resolver)
    ensures Strip(Rewritten(text, resolver)) == Strip(Expanded(Pieces(text), resolver))
  {
    var pieces := Pieces(text);
    var head, tail := RewriteKeepsCitations(text, resolver);
    JoinedIsWeave(pieces, resolver);
    StripOfWeave(HeadOf(pieces, resolver), CitationsOf(pieces, resolver), head, tail);
    StripOfJoined(pieces, resolver);
  }

  // ---------------------------------------------------------------------
  // No bracket is added
  // ---------------------------------------------------------------------

  predicate IsBracket(c: char) {
    c == '[' || c == ']'
  }

  function Brackets(s: string): nat {
    if s == "" then 0 else (if IsBracket(s[0]) then 1 else 0) + Brackets(s[1..])
  }

  lemma {:induction false} BracketsAppend(a: string, b: string)
    ensures Brackets(a + b) == Brackets(a) + Brackets(b)
  {
    if a == "" {
      assert a + b == b;
    } else {
      assert (a + b)[1..] == a[1..] + b;
      BracketsAppend(a[1..], b);
    }
  }

  lemma BracketAt(s: string, i: nat)
    requires i < |s| && IsBracket(s[i])
    ensures Brackets(s) == Brackets(s[..i]) + 1 + Brackets(s[i + 1..])
  {
    assert s == s[..i] + s[i..];
    BracketsAppend(s[..i], s[i..]);
  }

  lemma TwoBrackets(s: string, j: nat)
    requires 0 < j < |s| && IsBracket(s[0]) && IsBracket(s[j])
    ensures Brackets(s) >= 2
  {
    BracketAt(s, j);
    BracketAt(s[..j], 0);
  }

  /** Nothing is matched that holds fewer brackets than it is replaced by. */
  ghost predicate Thrifty(m: Matcher) {
    forall s: string :: m(s).Some? ==> Saves(s, m(s).value)
  }

  ghost predicate Saves(s: string, hit: Match) {
    hit.len <= |s| && Brackets(hit.replacement) <= Brackets(s[..hit.len])
  }

  lemma MatchersAreThrifty()
    ensures Thrifty(CommasBetweenIds) && Thrifty(DoubleOpen) && Thrifty(DoubleClose) && Thrifty(EmptyBrackets)
    ensures Thrifty(SpaceInside) && Thrifty(ManyBlanks)
  {
    forall s: string | CommasBetweenIds(s).Some? ensures Saves(s, CommasBetweenIds(s).value) {
      var n := CommasBetweenIds(s).value.len;
      TwoBrackets(s[..n], n - 1);
      CountedBrackets();
    }
    forall s: string | DoubleOpen(s).Some? ensures Saves(s, DoubleOpen(s).value) {
      BracketAt(s[..DoubleOpen(s).value.len], 0);
      CountedBrackets();
    }
    forall s: string | DoubleClose(s).Some? ensures Saves(s, DoubleClose(s).value) {
      BracketAt(s[..DoubleClose(s).value.len], 0);
      CountedBrackets();
    }
    forall s: string | SpaceInside(s).Some? ensures Saves(s, SpaceInside(s).value) {
      var n := SpaceInside(s).value.len;
      BracketAt(s[..n], if At(s, 0, '[') then 0 else n - 1);
      CountedBrackets();
    }
  }

  lemma CountedBrackets()
    ensures Brackets("] [") == 2 && Brackets("[") == 1 && Brackets("]") == 1 && Brackets("") == 0 && Brackets(" ") == 0
  {
    assert "] [" == "]" + (" " + "[");
    BracketsAppend("]", " " + "[");
    BracketsAppend(" ", "[");
  }

  lemma {:induction false} SubstituteAddsNoBracket(m: Matcher, s: string)
    requires Thrifty(m)
    ensures Brackets(Substitute(m, s)) <= Brackets(s)
    decreases |s|
  {
    if s != "" {
      var hit := m(s);
      if hit.Some? && 0 < hit.value.len <= |s| {
        var n := hit.value.len;
        assert Saves(s, hit.value);
        SubstituteAddsNoBracket(m, s[n..]);
        BracketsAppend(hit.value.replacement, Substitute(m, s[n..]));
        BracketsAppend(s[..n], s[n..]);
        assert s == s[..n] + s[n..];
      } else {
        SubstituteAddsNoBracket(m, s[1..]);
        BracketsAppend([s[0]], Substitute(m, s[1..]));
      }
    }
  }

  lemma CollapseAddsNoBracket(text: string)
    ensures Brackets(Collapse(text)) <= Brackets(text)
  {
    hide Brackets, Substitute, Thrifty;
    MatchersAreThrifty();
    var t1 := Substitute(CommasBetweenIds, text);
    var t2 := Substitute(DoubleOpen, t1);
    var t3 := Substitute(DoubleClose, t2);
    var t4 := Substitute(EmptyBrackets, t3);
    var t5 := Substitute(SpaceInside, t4);
    SubstituteAddsNoBracket(CommasBetweenIds, text);
    SubstituteAddsNoBracket(DoubleOpen, t1);
    SubstituteAddsNoBracket(DoubleClose, t2);
    SubstituteAddsNoBracket(EmptyBrackets, t3);
    SubstituteAddsNoBracket(SpaceInside, t4);
    SubstituteAddsNoBracket(ManyBlanks, t5);
  }

  lemma {:induction false} HexHasNoBracket(s: string)
    requires AllHex(s)
    ensures Brackets(s) == 0
  {
    if s != "" {
      HexHasNoBracket(s[1..]);
    }
  }

  /** The brackets of a text: those of its plain characters. */
  function PlainBrackets(pieces: seq<Piece>): nat {
    if pieces == [] then 0
    else (if pieces[0].Plain? && IsBracket(pieces[0].c) then 1 else 0) + PlainBrackets(pieces[1..])
  }

  lemma {:induction false} JoinedBrackets(pieces: seq<Piece>, resolver: Resolver)
    requires GoodResolver(resolver) && forall i :: 0 <= i < |pieces| && pieces[i].Run? ==> AllHex(pieces[i].hex)
    ensures Brackets(Joined(pieces, resolver)) == PlainBrackets(pieces) + 2 * |CitedIds(pieces, resolver)|
  {
    if pieces != [] {
      var rest := Joined(pieces[1..], resolver);
      JoinedBrackets(pieces[1..], resolver);
      BracketsAppend(Render(pieces[0], resolver), rest);
      RenderBrackets(pieces[0], resolver);
    }
  }

  lemma RenderBrackets(p: Piece, resolver: Resolver)
    requires GoodResolver(resolver) && (p.Run? ==> AllHex(p.hex))
    ensures Brackets(Render(p, resolver)) ==
      if p.Plain? then (if IsBracket(p.c) then 1 else 0) else if Target(p.hex, resolver).Some? then 2 else 0
  {
    CountedBrackets();
    if p.Run? {
      HexHasNoBracket(p.hex);
      var target := Target(p.hex, resolver);
      if target.Some? {
        var id := target.value;
        HexHasNoBracket(id);
        BracketsAppend("[" + id, "]");
        BracketsAppend("[", id);
      }
    }
  }

  lemma {:induction false} PieceBrackets(text: string)
    ensures PlainBrackets(Pieces(text)) == Brackets(text)
    ensures forall i :: 0 <= i < |Pieces(text)| && Pieces(text)[i].Run? ==> AllHex(Pieces(text)[i].hex)
    decreases |text|
  {
    if text != "" {
      var n := HexLen(text, MAX_RUN);
      HexLenMeaning(text, MAX_RUN);
      if n >= MIN_RUN {
        PieceBrackets(text[n..]);
        HexHasNoBracket(text[..n]);
        BracketsAppend(text[..n], text[n..]);
        assert text == text[..n] + text[n..];
      } else {
        PieceBrackets(text[1..]);
      }
    }
  }

  /** The output has no more brackets than the input and the two around each resolved run. */
  lemma RewriteAddsNoBracket(text: string, resolver: Resolver)
    requires GoodResolver(resolver)
    ensures Brackets(Rewritten(text, resolver)) <= Brackets(text) + 2 * |CitedIds(Pieces(text), resolver)|
  {
    hide Brackets, PlainBrackets, CitedIds, Joined, Pieces, Collapse;
    PieceBrackets(text);
    JoinedBrackets(Pieces(text), resolver);
    CollapseAddsNoBracket(Joined(Pieces(text), resolver));
  }

  // ---------------------------------------------------------------------
  // Resolution
  // ---------------------------------------------------------------------

  /** One of the two is a prefix of the other. */
  predicate Compatible(m: string, id: string) {
    m <= id || id <= m
  }

  lemma PrefixOfId(m: string, k: string)
    requires IsId(k) && |m| >= ID_LENGTH
    ensures Compatible(m, k) <==> k == m[..ID_LENGTH]
  {
  }

  lemma ShortMarker(m: string, known: set<string>)
    requires KnownIds(known) && |m| < ID_LENGTH
    ensures forall k :: k in known ==> (Compatible(m, k) <==> k in Matches(m, known))
  {
  }

  lemma SingletonSize(s: set<string>, id: string)
    requires id in s && forall k :: k in s ==> k == id
    ensures |s| == 1
  {
    assert s == {id};
  }

  /**
   A marker of 6 to 70 hex characters resolves to id exactly when id is the one
   known id that the marker abbreviates or extends.
   */
  lemma ResolveIffUnique(marker: string, known: set<string>, id: string)
    requires KnownIds(known) && MIN_RUN <= |marker| <= MAX_RUN && AllHex(LowerAll(marker))
    ensures Resolve(marker, known) == Some(id) <==>
      id in known && Compatible(LowerAll(marker), id) &&
      (forall k :: k in known && Compatible(LowerAll(marker), k) ==> k == id)
  {
    var m := LowerAll(marker);
    var matches := Matches(m, known);
    if |m| >= ID_LENGTH {
      forall k | k in known ensures Compatible(m, k) <==> k == m[..ID_LENGTH] {
        PrefixOfId(m, k);
      }
      assert m[..ID_LENGTH] in known ==> Compatible(m, m[..ID_LENGTH]);
      if |m| == ID_LENGTH {
        assert m[..ID_LENGTH] == m;
        assert forall k :: k in matches ==> Compatible(m, k);
        assert m !in known ==> matches == {};
      }
    } else {
      ShortMarker(m, known);
      if |matches| == 1 {
        OneMember(matches);
      }
      if id in matches && forall k :: k in matches ==> k == id {
        SingletonSize(matches, id);
      }
    }
  }
}
