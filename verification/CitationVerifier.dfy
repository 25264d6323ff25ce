/** verify_citations: collect the known ids, resolve every run, rewrite, and report. */
module CitationVerifier {
  import opened Options
  import opened Positions
  import opened Citations
  import opened Search
  import opened CitationTheorems

  /** A tool output as parsed JSON. */
  datatype Json = Text(s: string) | Items(items: seq<Json>) | Other

  /** An evidence bullet: only strings are scanned, but str() of any is rewritten. */
  datatype Bullet = TextBullet(text: string) | OtherBullet(text: string)

  datatype Artifact = Artifact(id: Option<string>, url: Option<string>)

  datatype Answer = NotAnObject | Answer(narrative: string, bullets: seq<Bullet>, artifact: Option<Artifact>)

  /** The 64-hex strings inside a text, lower-cased: matches of [0-9a-fA-F]{64}. */
  function IdsInText(s: string): set<string>
    decreases |s|
  {
    if s == "" then {}
    else if HexLen(s, ID_LENGTH) == ID_LENGTH then {LowerAll(s[..ID_LENGTH])} + IdsInText(s[ID_LENGTH..])
    else IdsInText(s[1..])
  }

  /** _walk_and_collect; the values of an object count as items. */
  function Collect(node: Json): set<string> {
    match node
    case Text(s) => IdsInText(s)
    case Items(items) => CollectAll(items)
    case Other => {}
  }

  function CollectAll(nodes: seq<Json>): set<string> {
    if nodes == [] then {} else Collect(nodes[0]) + CollectAll(nodes[1..])
  }

  lemma {:induction false} TextIdsAreIds(s: string)
    ensures KnownIds(IdsInText(s))
    decreases |s|
  {
    if s != "" {
      HexLenMeaning(s, ID_LENGTH);
      if HexLen(s, ID_LENGTH) == ID_LENGTH {
        TextIdsAreIds(s[ID_LENGTH..]);
      } else {
        TextIdsAreIds(s[1..]);
      }
    }
  }

  /** Everything harvested from a trace is a lower-case 64-hex id. */
  lemma {:induction false} CollectedAreIds(nodes: seq<Json>)
    ensures KnownIds(CollectAll(nodes))
  {
    if nodes != [] {
      CollectedAreIds(nodes[1..]);
      match nodes[0]
      case Text(s) => TextIdsAreIds(s);
      case Items(items) => CollectedAreIds(items);
      case Other =>
    }
  }

  // ---------------------------------------------------------------------
  // What is harvested
  // ---------------------------------------------------------------------

  /** [0-9a-fA-F]{64} */
  predicate IsFullId(x: string) {
    |x| == 64 && forall i :: 0 <= i < |x| ==> x[i] in HEX_DIGITS
  }

  /** id is one of the matches, lower-cased. */
  ghost predicate Holds(pieces: seq<Piece>, id: string) {
    exists i :: 0 <= i < |pieces| && pieces[i].Run? && id == LowerAll(pieces[i].hex)
  }

  /** The leftmost non-overlapping search for full ids finds id in s. */
  ghost predicate FoundIn(s: string, id: string) {
    exists pieces :: IsSearch(IsFullId, pieces, s) && Holds(pieces, id)
  }

  /** The text at a path of positions, from the outermost list inwards. */
  function TextAt(nodes: seq<Json>, path: seq<nat>): Option<string>
    decreases |path|
  {
    if path == [] || path[0] >= |nodes| then None
    else match nodes[path[0]]
      case Text(s) => if |path| == 1 then Some(s) else None
      case Items(items) => TextAt(items, path[1..])
      case Other => None
  }

  /** A text of the trace, at any depth, in which id is found. */
  ghost predicate FoundAt(nodes: seq<Json>, path: seq<nat>, id: string) {
    TextAt(nodes, path).Some? && FoundIn(TextAt(nodes, path).value, id)
  }

  lemma FullIdAtFront(s: string)
    ensures if HexLen(s, ID_LENGTH) == ID_LENGTH then LongestMatch(IsFullId, s, s[..ID_LENGTH]) else NoMatch(IsFullId, s)
  {
    HexLenMeaning(s, ID_LENGTH);
    forall c: char ensures IsHex(c) <==> c in HEX_DIGITS {
      HexDigits(c);
    }
    var n := HexLen(s, ID_LENGTH);
    forall m | n < m <= |s| ensures !IsFullId(s[..m]) {
      assert n < 64 ==> s[..m][n] == s[n];
    }
  }

  lemma HoldsCons(p: Piece, rest: seq<Piece>, id: string)
    ensures Holds([p] + rest, id) <==> (p.Run? && id == LowerAll(p.hex)) || Holds(rest, id)
  {
    var all := [p] + rest;
    if Holds(rest, id) {
      var i :| 0 <= i < |rest| && rest[i].Run? && id == LowerAll(rest[i].hex);
      assert all[i + 1] == rest[i];
    }
    assert all[0] == p;
    forall i | 0 < i < |all| ensures all[i] == rest[i - 1] {}
  }

  lemma {:induction false} IdsInTextSearch(s: string) returns (pieces: seq<Piece>)
    ensures IsSearch(IsFullId, pieces, s)
    ensures forall id :: id in IdsInText(s) <==> Holds(pieces, id)
    decreases |s|
  {
    hide HexLen, LongestMatch, NoMatch, Holds;
    if s == "" {
      pieces := [];
      NothingHeld();
    } else {
      FullIdAtFront(s);
      var full := HexLen(s, ID_LENGTH) == ID_LENGTH;
      var rest := IdsInTextSearch(s[if full then ID_LENGTH else 1..]);
      var first := if full then Run(s[..ID_LENGTH]) else Plain(s[0]);
      pieces := [first] + rest;
      assert pieces[1..] == rest;
      forall id ensures id in IdsInText(s) <==> Holds(pieces, id) {
        HoldsCons(first, rest, id);
      }
    }
  }

  lemma NothingHeld()
    ensures forall id :: !Holds([], id)
  {
  }

  lemma IdsInTextIff(s: string, id: string)
    ensures id in IdsInText(s) <==> FoundIn(s, id)
  {
    var pieces := IdsInTextSearch(s);
    forall other | IsSearch(IsFullId, other, s) ensures other == pieces {
      SearchIsUnique(IsFullId, other, pieces, s);
    }
  }

  /** Harvested is exactly what the search finds in some text of the trace, wherever it stands. */
  lemma {:induction false} CollectedIff(nodes: seq<Json>, id: string)
    ensures id in CollectAll(nodes) <==> exists path :: FoundAt(nodes, path, id)
  {
    hide IdsInText, FoundIn;
    if nodes != [] {
      CollectedIff(nodes[1..], id);
      match nodes[0] {
        case Text(s) => IdsInTextIff(s, id);
        case Items(items) => CollectedIff(items, id);
        case Other =>
      }
      CollectedFirst(nodes, id);
      if path :| FoundAt(nodes, path, id) && path[0] > 0 {
        assert FoundAt(nodes[1..], [path[0] - 1] + path[1..], id);
      }
      if path :| FoundAt(nodes[1..], path, id) {
        assert FoundAt(nodes, [path[0] + 1] + path[1..], id);
      }
    }
  }

  /** The same for the first node, whose own texts are known. */
  lemma CollectedFirst(nodes: seq<Json>, id: string)
    requires nodes != []
    requires nodes[0].Text? ==> (id in IdsInText(nodes[0].s) <==> FoundIn(nodes[0].s, id))
    requires nodes[0].Items? ==> (id in CollectAll(nodes[0].items) <==> exists path :: FoundAt(nodes[0].items, path, id))
    ensures id in Collect(nodes[0]) <==> exists path :: path != [] && path[0] == 0 && FoundAt(nodes, path, id)
  {
    hide IdsInText, FoundIn, CollectAll;
    match nodes[0]
    case Text(s) =>
      assert TextAt(nodes, [0]) == Some(s);
      assert FoundAt(nodes, [0], id) <==> FoundIn(s, id);
    case Items(items) =>
      forall path ensures FoundAt(items, path, id) <==> FoundAt(nodes, [0] + path, id) {
        assert ([0] + path)[1..] == path;
      }
      forall path: seq<nat> | path != [] && path[0] == 0 ensures FoundAt(nodes, path, id) <==> FoundAt(items, path[1..], id) {
      }
    case Other =>
  }

  /** The lower-cased hex runs of a text, in order. */
  function RunsIn(pieces: seq<Piece>): seq<string> {
    if pieces == [] then []
    else (if pieces[0].Run? then [LowerAll(pieces[0].hex)] else []) + RunsIn(pieces[1..])
  }

  function RunsOf(texts: seq<string>): seq<string> {
    if texts == [] then [] else RunsIn(Pieces(texts[0])) + RunsOf(texts[1..])
  }


  function RunOf(): Piece -> Option<string> {
    (p: Piece) => if p.Run? then Some(LowerAll(p.hex)) else None
  }

  lemma {:induction false} RunsInAppend(a: seq<Piece>, b: seq<Piece>)
    ensures RunsIn(a + b) == RunsIn(a) + RunsIn(b)
  {
    if a == [] {
      assert a + b == b;
    } else {
      assert (a + b)[1..] == a[1..] + b;
      RunsInAppend(a[1..], b);
    }
  }

  lemma {:induction false} RunsInChoice(pieces: seq<Piece>)
    ensures IsChoice(RunsIn(pieces), pieces, RunOf())
  {
    hide IsChoice;
    if pieces == [] {
      NothingChosen(RunOf());
    } else {
      var init, last := pieces[..|pieces| - 1], pieces[|pieces| - 1];
      RunsInChoice(init);
      ChoiceSnoc(RunsIn(init), pieces, RunOf());
      assert pieces == init + [last];
      RunsInAppend(init, [last]);
      assert RunsIn([last]) == Listed(RunOf()(last));
    }
  }

  function AddSeen(seen: seq<string>, x: string): seq<string> {
    if x in seen then seen else seen + [x]
  }

  /** s without repetitions, in order of first appearance. */
  function FirstSeen(s: seq<string>): seq<string> {
    if s == [] then [] else AddSeen(FirstSeen(s[..|s| - 1]), s[|s| - 1])
  }

  /** The ids that runs resolve to, in order. */
  function IdsOf(runs: seq<string>, known: set<string>): seq<string> {
    if runs == [] then []
    else IdsOf(runs[..|runs| - 1], known) + Listed(Resolve(runs[|runs| - 1], known))
  }

  /** The runs that resolve to nothing, in order. */
  function Unresolved(runs: seq<string>, known: set<string>): seq<string> {
    if runs == [] then []
    else
      var last := runs[|runs| - 1];
      Unresolved(runs[..|runs| - 1], known) + if Resolve(last, known).None? then [last] else []
  }

  /** The narrative, then the bullets that are strings. */
  function ScannedBullets(bullets: seq<Bullet>): seq<string> {
    if bullets == [] then []
    else
      var before, last := ScannedBullets(bullets[..|bullets| - 1]), bullets[|bullets| - 1];
      if last.TextBullet? then before + [last.text] else before
  }

  function Scanned(answer: Answer): seq<string>
    requires answer.Answer?
  {
    [answer.narrative] + ScannedBullets(answer.bullets)
  }

  /** The artifact's full id, when it resolves. */
  function ArtifactId(artifact: Option<Artifact>, known: set<string>): Option<string> {
    if artifact.Some? && artifact.value.id.Some? then Resolve(LowerAll(artifact.value.id.value), known) else None
  }

  function StringOf(): Bullet -> Option<string> {
    (b: Bullet) => if b.TextBullet? then Some(b.text) else None
  }

  function Resolution(known: set<string>): string -> Option<string> {
    (run: string) => Resolve(run, known)
  }

  function Failure(known: set<string>): string -> Option<string> {
    (run: string) => if Resolve(run, known).None? then Some(run) else None
  }

  /** The narrative and every bullet that is a string are scanned, in this order. */
  lemma {:induction false} ScannedChoice(bullets: seq<Bullet>)
    ensures IsChoice(ScannedBullets(bullets), bullets, StringOf())
  {
    hide IsChoice;
    if bullets == [] {
      NothingChosen(StringOf());
    } else {
      ScannedChoice(bullets[..|bullets| - 1]);
      ChoiceSnoc(ScannedBullets(bullets[..|bullets| - 1]), bullets, StringOf());
      assert ScannedBullets(bullets) == ScannedBullets(bullets[..|bullets| - 1]) + Listed(StringOf()(bullets[|bullets| - 1]));
    }
  }

  /** The ids are the resolutions of the runs that have one, in their order. */
  lemma {:induction false} IdsOfChoice(runs: seq<string>, known: set<string>)
    ensures IsChoice(IdsOf(runs, known), runs, Resolution(known))
  {
    hide IsChoice, Resolve;
    if runs == [] {
      NothingChosen(Resolution(known));
    } else {
      IdsOfChoice(runs[..|runs| - 1], known);
      ChoiceSnoc(IdsOf(runs[..|runs| - 1], known), runs, Resolution(known));
      assert IdsOf(runs, known) == IdsOf(runs[..|runs| - 1], known) + Listed(Resolution(known)(runs[|runs| - 1]));
    }
  }

  /** The unresolved runs are those that have none, in their order. */
  lemma {:induction false} UnresolvedChoice(runs: seq<string>, known: set<string>)
    ensures IsChoice(Unresolved(runs, known), runs, Failure(known))
  {
    hide IsChoice, Resolve;
    if runs == [] {
      NothingChosen(Failure(known));
    } else {
      UnresolvedChoice(runs[..|runs| - 1], known);
      ChoiceSnoc(Unresolved(runs[..|runs| - 1], known), runs, Failure(known));
      assert Unresolved(runs, known) == Unresolved(runs[..|runs| - 1], known) + Listed(Failure(known)(runs[|runs| - 1]));
    }
  }

  predicate Occurs(part: string, s: string) {
    part <= s || (s != "" && Occurs(part, s[1..]))
  }

  /** str.replace */
  function Replace(s: string, part: string, with: string): string
    requires part != ""
  {
    if |s| < |part| then s
    else if part <= s then with + Replace(s[|part|..], part, with)
    else [s[0]] + Replace(s[1..], part, with)
  }

  function Literal(part: string): Language {
    x => x == part
  }

  function Always(with: string): string -> string {
    x => with
  }

  lemma {:induction false} OccursIff(part: string, s: string)
    ensures Occurs(part, s) <==> exists i :: 0 <= i <= |s| && part <= s[i..]
  {
    if s != "" {
      OccursIff(part, s[1..]);
      forall i | 0 < i <= |s| ensures s[i..] == s[1..][i - 1..] {}
    }
    assert s[0..] == s;
  }

  lemma LiteralAtFront(s: string, part: string)
    requires part != ""
    ensures if part <= s then LongestMatch(Literal(part), s, part) else NoMatch(Literal(part), s)
  {
  }

  /** str.replace is the substitution of one literal text. */
  lemma {:induction false} ReplaceSearch(s: string, part: string, with: string) returns (pieces: seq<Piece>)
    requires part != ""
    ensures IsSearch(Literal(part), pieces, s) && Replace(s, part, with) == Replaced(pieces, Always(with))
    decreases |s|
  {
    hide LongestMatch, NoMatch;
    pieces := [];
    if s != "" {
      LiteralAtFront(s, part);
      var hit := part <= s;
      var rest := ReplaceSearch(s[if hit then |part| else 1..], part, with);
      pieces := [if hit then Run(part) else Plain(s[0])] + rest;
      assert pieces[1..] == rest;
      if |s| < |part| {
        ShortReplace(s[1..], part, with);
      }
    }
  }

  lemma ShortReplace(s: string, part: string, with: string)
    requires |s| < |part|
    ensures Replace(s, part, with) == s
  {
  }

  /** The artifact with its id completed, and its url with it. */
  function Completed(artifact: Option<Artifact>, full: Option<string>): Option<Artifact> {
    match (artifact, full)
    case (Some(Artifact(Some(id), url)), Some(fullId)) =>
      Some(Artifact(full, if url.Some? && id != "" && Occurs(id, url.value) then Some(Replace(url.value, id, fullId)) else url))
    case _ => artifact
  }

  /** The ids that an answer cites, the artifact last. */
  function CitedBy(answer: Answer, known: set<string>): seq<string>
    requires answer.Answer?
  {
    FirstSeen(IdsOf(RunsOf(Scanned(answer)), known) + Listed(ArtifactId(answer.artifact, known)))
  }

  /** FirstSeen keeps exactly the elements of s, each once, ordered by where they first occur. */
  lemma {:induction false} FirstSeenMeaning(s: seq<string>)
    ensures forall x :: x in FirstSeen(s) <==> x in s
    ensures forall i, j :: 0 <= i < j < |FirstSeen(s)| ==> FirstSeen(s)[i] != FirstSeen(s)[j]
    ensures forall i, j :: 0 <= i < j < |FirstSeen(s)| ==> EarlierIn(s, FirstSeen(s)[i], FirstSeen(s)[j])
  {
    if s != [] {
      var init, last := s[..|s| - 1], s[|s| - 1];
      FirstSeenMeaning(init);
      assert s == init + [last];
      forall x, y | EarlierIn(init, x, y) ensures EarlierIn(s, x, y) {
        var n :| 0 <= n < |init| && init[n] == x && y !in init[..n + 1];
        assert s[n] == x && s[..n + 1] == init[..n + 1];
      }
      forall x | x in init && last !in init ensures EarlierIn(s, x, last) {
        var n :| 0 <= n < |init| && init[n] == x;
        assert s[n] == x && s[..n + 1] == init[..n + 1];
      }
      forall i, j | 0 <= i < j < |FirstSeen(s)| ensures EarlierIn(s, FirstSeen(s)[i], FirstSeen(s)[j]) {
        if j < |FirstSeen(init)| {
          assert EarlierIn(init, FirstSeen(init)[i], FirstSeen(init)[j]);
        } else {
          assert FirstSeen(init)[i] in FirstSeen(init);
        }
      }
    }
  }

  /** x occurs in s before every occurrence of y. */
  ghost predicate EarlierIn(s: seq<string>, x: string, y: string) {
    exists n :: 0 <= n < |s| && s[n] == x && y !in s[..n + 1]
  }

  lemma SeenSnoc(s: seq<string>, x: string)
    ensures FirstSeen(s + [x]) == AddSeen(FirstSeen(s), x)
  {
  }

  lemma SeenListed(s: seq<string>, o: Option<string>)
    ensures FirstSeen(s + Listed(o)) == if o.Some? then AddSeen(FirstSeen(s), o.value) else FirstSeen(s)
  {
    match o
    case Some(x) => SeenSnoc(s, x);
    case None => assert s + [] == s;
  }

  lemma {:induction false} IdsOfElements(runs: seq<string>, known: set<string>, raw: string)
    requires raw in runs && Resolve(raw, known).Some?
    ensures Resolve(raw, known).value in IdsOf(runs, known)
  {
    hide Resolve;
    if runs[|runs| - 1] != raw {
      IdsOfElements(runs[..|runs| - 1], known, raw);
    }
  }

  /** Scanning each distinct run once finds the same ids in the same order. */
  lemma {:induction false} EachRunOnce(runs: seq<string>, known: set<string>)
    ensures FirstSeen(IdsOf(FirstSeen(runs), known)) == FirstSeen(IdsOf(runs, known))
  {
    hide Resolve;
    if runs != [] {
      var init, last := runs[..|runs| - 1], runs[|runs| - 1];
      EachRunOnce(init, known);
      SeenListed(IdsOf(init, known), Resolve(last, known));
      FirstSeenMeaning(init);
      if last in init {
        if Resolve(last, known).Some? {
          IdsOfElements(init, known, last);
          FirstSeenMeaning(IdsOf(init, known));
        }
      } else {
        assert (FirstSeen(init) + [last])[..|FirstSeen(init)|] == FirstSeen(init);
        SeenListed(IdsOf(FirstSeen(init), known), Resolve(last, known));
      }
    }
  }

  /** The first pass: the distinct runs in order, each with its resolution. */
  method ScanRuns(runs: seq<string>, known: set<string>) returns (markers: seq<string>, resolver: Resolver)
    ensures markers == FirstSeen(runs)
    ensures resolver.Keys == (set raw | raw in runs)
    ensures forall raw :: raw in resolver ==> resolver[raw] == Resolve(raw, known)
  {
    hide Resolve;
    markers, resolver := [], map[];
    for n := 0 to |runs|
      invariant markers == FirstSeen(runs[..n])
      invariant forall raw :: raw in resolver <==> raw in runs[..n]
      invariant forall raw :: raw in resolver ==> resolver[raw] == Resolve(raw, known)
    {
      assert runs[..n + 1][..n] == runs[..n];
      assert runs[..n + 1] == runs[..n] + [runs[n]];
      FirstSeenMeaning(runs[..n]);
      if runs[n] !in resolver {
        markers := markers + [runs[n]];
        resolver := resolver[runs[n] := Resolve(runs[n], known)];
      }
    }
    assert runs[..|runs|] == runs;
  }

  lemma NothingCited(known: set<string>)
    ensures FirstSeen(IdsOf([], known)) == []
  {
  }

  /** The second pass over the distinct runs: cited ids and unverified runs. */
  method Classify(markers: seq<string>, resolver: Resolver, known: set<string>)
      returns (cited: seq<string>, unverified: seq<string>)
    requires forall raw :: raw in markers ==> raw in resolver && resolver[raw] == Resolve(raw, known)
    requires forall i, j :: 0 <= i < j < |markers| ==> markers[i] != markers[j]
    ensures cited == FirstSeen(IdsOf(markers, known))
    ensures unverified == Unresolved(markers, known)
  {
    hide Resolve, FirstSeen;
    cited, unverified := [], [];
    NothingCited(known);
    for n := 0 to |markers|
      invariant cited == FirstSeen(IdsOf(markers[..n], known))
      invariant unverified == Unresolved(markers[..n], known)
      invariant forall raw :: raw in unverified ==> raw in markers[..n]
    {
      var raw := markers[n];
      assert markers[..n + 1][..n] == markers[..n];
      SeenListed(IdsOf(markers[..n], known), Resolve(raw, known));
      if resolver[raw].Some? {
        if resolver[raw].value !in cited {
          cited := cited + [resolver[raw].value];
        }
      } else if raw !in unverified {
        unverified := unverified + [raw];
      }
    }
    assert markers[..|markers|] == markers;
  }

  /** The bullet is this text, rewritten. */
  ghost predicate RewritesTo(text: string, out: Bullet, resolver: Resolver) {
    out == TextBullet(Rewritten(text, resolver)) && IsRewrite(text, resolver, out.text)
  }

  /** The bullets, each rewritten; they come back as strings. */
  method RewriteBullets(bullets: seq<Bullet>, resolver: Resolver) returns (out: seq<Bullet>)
    ensures |out| == |bullets|
    ensures forall i :: 0 <= i < |bullets| ==> RewritesTo(bullets[i].text, out[i], resolver)
  {
    hide Rewritten, IsRewrite;
    out := [];
    for n := 0 to |bullets|
      invariant |out| == n
      invariant forall i :: 0 <= i < n ==> RewritesTo(bullets[i].text, out[i], resolver)
    {
      var text := RewriteText(bullets[n].text, resolver);
      out := out + [TextBullet(text)];
    }
  }

  /** The artifact as it was, or with the full id in the place of its own, in the url as well. */
  ghost predicate IsCompleted(before: Option<Artifact>, after: Option<Artifact>, full: Option<string>) {
    if before.Some? && before.value.id.Some? && full.Some? then
      var id := before.value.id.value;
      && after.Some? && after.value.id == full
      && (before.value.url.None? ==> after.value.url.None?)
      && (before.value.url.Some? ==> after.value.url.Some? && NewUrl(before.value.url.value, after.value.url.value, id, full.value))
    else after == before
  }

  ghost predicate NewUrl(url: string, url': string, id: string, full: string) {
    if id != "" && exists i :: 0 <= i <= |url| && id <= url[i..] then IsSub(Literal(id), Always(full), url, url') else url' == url
  }

  lemma CompletedIsCompleted(artifact: Option<Artifact>, full: Option<string>)
    ensures IsCompleted(artifact, Completed(artifact, full), full)
  {
    if artifact.Some? && artifact.value.id.Some? && full.Some? && artifact.value.url.Some? && artifact.value.id.value != "" {
      var id, url := artifact.value.id.value, artifact.value.url.value;
      OccursIff(id, url);
      var pieces := ReplaceSearch(url, id, full.value);
    }
  }

  /** Every text rewritten, and the artifact completed when its id resolves to full. */
  ghost predicate Rewrites(answer: Answer, out: Answer, resolver: Resolver, full: Option<string>) {
    && answer.Answer? && out.Answer?
    && RewritesTo(answer.narrative, TextBullet(out.narrative), resolver)
    && |out.bullets| == |answer.bullets|
    && (forall i :: 0 <= i < |answer.bullets| ==> RewritesTo(answer.bullets[i].text, out.bullets[i], resolver))
    && out.artifact == Completed(answer.artifact, full)
    && IsCompleted(answer.artifact, out.artifact, full)
  }

  /** The lower-cased hex runs that the search finds in these texts, one text after another. */
  ghost predicate RunsOver(runs: seq<string>, texts: seq<string>)
    decreases |texts|
  {
    if texts == [] then runs == []
    else
      exists pieces, first :: IsSearch(IsHexRun, pieces, texts[0]) && IsChoice(first, pieces, RunOf())
        && first <= runs && RunsOver(runs[|first|..], texts[1..])
  }

  /** out holds the elements of s, each once, ordered by where they first occur. */
  ghost predicate IsFirstSeen(out: seq<string>, s: seq<string>) {
    && (forall x :: x in out <==> x in s)
    && (forall i, j :: 0 <= i < j < |out| ==> out[i] != out[j])
    && (forall i, j :: 0 <= i < j < |out| ==> EarlierIn(s, out[i], out[j]))
  }

  /**
   The runs of the narrative and of the bullets that are strings: what resolves is cited, the
   artifact after it, and what does not is unverified, all without repetition in order of appearance.
   */
  ghost predicate Cites(answer: Answer, known: set<string>, cited: seq<string>, unverified: seq<string>)
    requires answer.Answer?
  {
    exists bullets, runs, markers, ids ::
      && IsChoice(bullets, answer.bullets, StringOf()) && RunsOver(runs, [answer.narrative] + bullets)
      && IsFirstSeen(markers, runs) && IsChoice(ids, runs, Resolution(known))
      && IsFirstSeen(cited, ids + Listed(ArtifactTarget(answer, known)))
      && IsChoice(unverified, markers, Failure(known))
  }

  /** The id that the artifact's id, lower-cased, resolves to. */
  ghost function ArtifactTarget(answer: Answer, known: set<string>): Option<string>
    requires answer.Answer?
  {
    match answer.artifact
    case Some(Artifact(Some(id), _)) => Resolve(LowerAll(id), known)
    case _ => None
  }

  lemma {:induction false} RunsOfRunsOver(texts: seq<string>)
    ensures RunsOver(RunsOf(texts), texts)
    decreases |texts|
  {
    hide IsChoice, IsSearch;
    if texts != [] {
      RunsOfRunsOver(texts[1..]);
      var pieces := Pieces(texts[0]);
      PiecesAreSearch(texts[0]);
      RunsInChoice(pieces);
      assert RunsOf(texts)[|RunsIn(pieces)|..] == RunsOf(texts[1..]);
    }
  }

  lemma FirstSeenIsFirstSeen(s: seq<string>)
    ensures IsFirstSeen(FirstSeen(s), s)
  {
    FirstSeenMeaning(s);
  }

  lemma CitedAsSaid(answer: Answer, known: set<string>)
    requires answer.Answer?
    ensures Cites(answer, known, CitedBy(answer, known), Unresolved(FirstSeen(RunsOf(Scanned(answer))), known))
  {
    hide IsChoice, RunsOver, IsFirstSeen, RunsOf, FirstSeen, IdsOf, Unresolved, ScannedBullets, Resolve;
    var bullets, runs := ScannedBullets(answer.bullets), RunsOf(Scanned(answer));
    ScannedChoice(answer.bullets);
    RunsOfRunsOver(Scanned(answer));
    FirstSeenIsFirstSeen(runs);
    IdsOfChoice(runs, known);
    FirstSeenIsFirstSeen(IdsOf(runs, known) + Listed(ArtifactId(answer.artifact, known)));
    UnresolvedChoice(FirstSeen(runs), known);
  }

  /** The resolution of every run of these texts. */
  ghost predicate Resolves(resolver: Resolver, texts: seq<string>, known: set<string>) {
    && resolver.Keys == (set raw | raw in RunsOf(texts))
    && (forall raw :: raw in resolver ==> resolver[raw] == Resolve(raw, known))
    && GoodResolver(resolver)
  }

  /**
   The outcome for one answer: every text rewritten, the artifact completed, the ids cited and the
   runs that stay unverified, both without repetition in order of first appearance, the artifact last.
   */
  method VerifyCitations(answer: Answer, trace: seq<Json>)
      returns (out: Answer, cited: seq<string>, unverified: seq<string>, ghost resolver: Resolver)
    ensures answer.NotAnObject? ==> out == answer && cited == [] && unverified == []
    ensures answer.Answer? ==> Resolves(resolver, Scanned(answer), CollectAll(trace))
    ensures answer.Answer? ==> Rewrites(answer, out, resolver, ArtifactTarget(answer, CollectAll(trace)))
    ensures answer.Answer? ==> Cites(answer, CollectAll(trace), cited, unverified)
    ensures answer.Answer? ==> cited == CitedBy(answer, CollectAll(trace))
    ensures answer.Answer? ==> unverified == Unresolved(FirstSeen(RunsOf(Scanned(answer))), CollectAll(trace))
  {
    hide Resolve, Rewritten, IsRewrite, IsCompleted, Completed, Cites, RunsOf, CollectAll, Scanned, GoodResolver, IdsOf, FirstSeen, Unresolved;
    if answer.NotAnObject? {
      resolver := map[];
      return answer, [], [], resolver;
    }
    var known := CollectAll(trace);
    var runs := RunsOf(Scanned(answer));
    var markers, found := ScanRuns(runs, known);
    resolver := found;
    CollectedAreIds(trace);
    ResolverIsGood(found, known);
    var narrative := RewriteText(answer.narrative, found);
    var bullets := RewriteBullets(answer.bullets, found);
    var full := ArtifactId(answer.artifact, known);
    CompletedIsCompleted(answer.artifact, full);
    CitedAsSaid(answer, known);
    out := Answer(narrative, bullets, Completed(answer.artifact, full));
    cited, unverified := Outcome(runs, markers, found, known, full);
  }

  /** The lists of the outcome, the artifact's id last. */
  method Outcome(runs: seq<string>, markers: seq<string>, resolver: Resolver, known: set<string>, full: Option<string>)
      returns (cited: seq<string>, unverified: seq<string>)
    requires markers == FirstSeen(runs)
    requires forall raw :: raw in runs ==> raw in resolver && resolver[raw] == Resolve(raw, known)
    ensures cited == FirstSeen(IdsOf(runs, known) + Listed(full))
    ensures unverified == Unresolved(FirstSeen(runs), known)
  {
    hide Resolve;
    FirstSeenMeaning(runs);
    cited, unverified := Classify(markers, resolver, known);
    EachRunOnce(runs, known);
    SeenListed(IdsOf(runs, known), full);
    if full.Some? && full.value !in cited {
      cited := cited + [full.value];
    }
  }

  lemma ResolverIsGood(resolver: Resolver, known: set<string>)
    requires KnownIds(known)
    requires forall raw :: raw in resolver ==> resolver[raw] == Resolve(raw, known)
    ensures GoodResolver(resolver)
  {
  }

}
