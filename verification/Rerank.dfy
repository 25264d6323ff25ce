/**
 The rerank seam: a reranker's answer is a list of (index, score) pairs, or a
 failure, and the hits are reordered by it with fallbacks.
 */
module Rerank {
  import opened Options
  import opened Positions

  /** A hit; usable says that its payload names an image that exists on disk. */
  datatype Hit = Hit(id: string, usable: bool, score: Option<real>, model: Option<string>)

  datatype Pair = Pair(index: int, score: real)

  datatype Reply = Failed | Ranked(pairs: seq<Pair>)

  datatype Mode = Text | VL

  const MAX_BATCH := 8

  /** What a reordered hit gets written on it. */
  datatype Mark = Unscored | Scored | ScoredBy(model: string)

  function Marked(h: Hit, score: real, mark: Mark): Hit {
    match mark
    case Unscored => h
    case Scored => h.(score := Some(score))
    case ScoredBy(model) => h.(score := Some(score), model := Some(model))
  }

  /** The hits named by the pairs whose index is in range, in the order of the pairs. */
  function Picked(hits: seq<Hit>, pairs: seq<Pair>, mark: Mark): seq<Hit> {
    if pairs == [] then []
    else
      var before, last := Picked(hits, pairs[..|pairs| - 1], mark), pairs[|pairs| - 1];
      if 0 <= last.index < |hits| then before + [Marked(hits[last.index], last.score, mark)] else before
  }

  function Usable(hits: seq<Hit>, usable: bool): seq<Hit> {
    if hits == [] then []
    else
      var before, last := Usable(hits[..|hits| - 1], usable), hits[|hits| - 1];
      if last.usable == usable then before + [last] else before
  }

  function Head(hits: seq<Hit>): seq<Hit> {
    if |hits| <= MAX_BATCH then hits else hits[..MAX_BATCH]
  }

  function Overflow(hits: seq<Hit>): seq<Hit> {
    if |hits| <= MAX_BATCH then [] else hits[MAX_BATCH..]
  }

  function Reordered(hits: seq<Hit>, reply: Reply, mark: Mark): seq<Hit> {
    match reply
    case Failed => hits
    case Ranked(pairs) => Picked(hits, pairs, mark)
  }

  /** The batch shown to the VL reranker, or to the text reranker when that fails. */
  function HeadReranked(head: seq<Hit>, vl: Reply, text: Reply): seq<Hit> {
    match vl
    case Ranked(pairs) => Picked(head, pairs, ScoredBy("vl"))
    case Failed => Reordered(head, text, ScoredBy("text-fallback"))
  }

  /** Reranked image hits in VL mode before the cap. */
  function AllReranked(hits: seq<Hit>, vl: Reply, headText: Reply, restText: Reply): seq<Hit> {
    HeadReranked(Head(Usable(hits, true)), vl, headText)
    + Overflow(Usable(hits, true))
    + Reordered(Usable(hits, false), restText, Unscored)
  }

  function Capped(hits: seq<Hit>, topN: Option<nat>): seq<Hit> {
    if topN.Some? && topN.value < |hits| then hits[..topN.value] else hits
  }

  /** What rerank_images returns. */
  function Returned(mode: Mode, query: string, hits: seq<Hit>, topN: Option<nat>,
                    vl: Reply, headText: Reply, restText: Reply): seq<Hit> {
    if query == "" || hits == [] then hits
    else if mode == Text then Reordered(hits, restText, Scored)
    else Capped(AllReranked(hits, vl, headText, restText), topN)
  }

  // ---------------------------------------------------------------------
  // What a caller gets to see
  // ---------------------------------------------------------------------

  /** The pair at this position names one of size documents. */
  function InRange(pairs: seq<Pair>, size: nat): int -> bool {
    i => 0 <= i < |pairs| && 0 <= pairs[i].index < size
  }

  function KeptIf(usable: bool): Hit -> Option<Hit> {
    (h: Hit) => if h.usable == usable then Some(h) else None
  }

  /** The same hit with the score and the model given, where they are. */
  predicate Shows(out: Hit, h: Hit, score: Option<real>, model: Option<string>) {
    && out.id == h.id && out.usable == h.usable
    && out.score == (if score.Some? then score else h.score)
    && out.model == (if model.Some? then model else h.model)
  }

  /** The hits that the pairs in range name, in the order of these pairs, with their scores if scored says so. */
  ghost predicate InRankOrder(out: seq<Hit>, hits: seq<Hit>, reply: Reply, scored: bool, model: Option<string>) {
    match reply
    case Failed => out == hits
    case Ranked(pairs) =>
      exists at :: Lists(at, InRange(pairs, |hits|)) && |out| == |at| &&
        forall k :: 0 <= k < |out| ==>
          Shows(out[k], hits[pairs[at[k]].index], if scored then Some(pairs[at[k]].score) else None, model)
  }

  /** The hits with or without an image on disk, in their order. */
  ghost predicate Part(part: seq<Hit>, hits: seq<Hit>, usable: bool) {
    IsChoice(part, hits, KeptIf(usable))
  }

  /** The first eight hits with an image as the VL reranker ranks them, or else as the text reranker does. */
  ghost predicate HeadOrder(head: seq<Hit>, images: seq<Hit>, vl: Reply, text: Reply) {
    var batch := if |images| <= 8 then images else images[..8];
    if vl.Ranked? then InRankOrder(head, batch, vl, true, Some("vl"))
    else InRankOrder(head, batch, text, text.Ranked?, Some("text-fallback"))
  }

  /** The ranked batch, the other hits with an image as they were, the ranked rest, all up to topN. */
  ghost predicate ImagesOrder(out: seq<Hit>, hits: seq<Hit>, topN: Option<nat>, vl: Reply, headText: Reply, restText: Reply) {
    exists images, rest, head, tail :: Part(images, hits, true) && Part(rest, hits, false)
      && HeadOrder(head, images, vl, headText) && InRankOrder(tail, rest, restText, false, None)
      && var all := head + (if |images| <= 8 then [] else images[8..]) + tail;
         out == if topN.Some? && topN.value < |all| then all[..topN.value] else all
  }

  lemma {:induction false} PickedFollows(hits: seq<Hit>, pairs: seq<Pair>, mark: Mark) returns (at: seq<int>)
    ensures Lists(at, InRange(pairs, |hits|)) && |Picked(hits, pairs, mark)| == |at|
    ensures forall k :: 0 <= k < |at| ==>
      Picked(hits, pairs, mark)[k] == Marked(hits[pairs[at[k]].index], pairs[at[k]].score, mark)
  {
    at := [];
    if pairs != [] {
      var init, n := pairs[..|pairs| - 1], |pairs| - 1;
      at := PickedFollows(hits, init, mark);
      ListsSnoc(at, InRange(init, |hits|), InRange(pairs, |hits|), n);
      if InRange(pairs, |hits|)(n) {
        at := at + [n];
      }
    }
  }

  lemma {:induction false} UsableIsPart(hits: seq<Hit>, usable: bool)
    ensures Part(Usable(hits, usable), hits, usable)
  {
    hide IsChoice;
    if hits == [] {
      NothingChosen(KeptIf(usable));
    } else {
      var init, last := hits[..|hits| - 1], hits[|hits| - 1];
      UsableIsPart(init, usable);
      ChoiceSnoc(Usable(init, usable), hits, KeptIf(usable));
      assert Usable(hits, usable) == Usable(init, usable) + Listed(KeptIf(usable)(last));
    }
  }

  lemma ReorderedFollows(hits: seq<Hit>, reply: Reply, mark: Mark)
    ensures InRankOrder(Reordered(hits, reply, mark), hits, reply, !mark.Unscored?, if mark.ScoredBy? then Some(mark.model) else None)
  {
    if reply.Ranked? {
      var at := PickedFollows(hits, reply.pairs, mark);
    }
  }

  lemma HeadFollows(images: seq<Hit>, vl: Reply, text: Reply)
    ensures HeadOrder(HeadReranked(Head(images), vl, text), images, vl, text)
  {
    ReorderedFollows(Head(images), vl, ScoredBy("vl"));
    ReorderedFollows(Head(images), text, ScoredBy("text-fallback"));
  }

  lemma ImagesFollow(hits: seq<Hit>, topN: Option<nat>, vl: Reply, headText: Reply, restText: Reply)
    ensures ImagesOrder(Capped(AllReranked(hits, vl, headText, restText), topN), hits, topN, vl, headText, restText)
  {
    hide InRankOrder, HeadOrder, HeadReranked, Reordered, Usable, Part;
    var images, rest := Usable(hits, true), Usable(hits, false);
    UsableIsPart(hits, true);
    UsableIsPart(hits, false);
    HeadFollows(images, vl, headText);
    ReorderedFollows(rest, restText, Unscored);
    assert HeadOrder(HeadReranked(Head(images), vl, headText), images, vl, headText);
    assert InRankOrder(Reordered(rest, restText, Unscored), rest, restText, false, None);
  }

  /** Picks by the pairs, one after another. */
  method Pick(hits: seq<Hit>, pairs: seq<Pair>, mark: Mark) returns (out: seq<Hit>)
    ensures out == Picked(hits, pairs, mark)
  {
    out := [];
    for n := 0 to |pairs|
      invariant out == Picked(hits, pairs[..n], mark)
    {
      assert pairs[..n + 1][..n] == pairs[..n];
      if pairs[n].index < 0 || pairs[n].index >= |hits| {
        continue;
      }
      out := out + [Marked(hits[pairs[n].index], pairs[n].score, mark)];
    }
    assert pairs[..|pairs|] == pairs;
  }

  /** rerank: given the reply, which is Failed when the call raised. */
  method RerankText(query: string, hits: seq<Hit>, reply: Reply) returns (out: seq<Hit>)
    ensures out == if query == "" || hits == [] then hits else Reordered(hits, reply, Scored)
    ensures if query == "" || hits == [] then out == hits else InRankOrder(out, hits, reply, true, None)
  {
    if query == "" || hits == [] {
      return hits;
    }
    ReorderedFollows(hits, reply, Scored);
    match reply
    case Failed => return hits;
    case Ranked(pairs) => out := Pick(hits, pairs, Scored);
  }

  /** rerank_images. */
  method RerankImages(mode: Mode, query: string, hits: seq<Hit>, topN: Option<nat>,
                      vl: Reply, headText: Reply, restText: Reply) returns (out: seq<Hit>)
    ensures out == Returned(mode, query, hits, topN, vl, headText, restText)
    ensures query == "" || hits == [] ==> out == hits
    ensures query != "" && hits != [] && mode == Text ==> InRankOrder(out, hits, restText, true, None)
    ensures query != "" && hits != [] && mode == VL ==> ImagesOrder(out, hits, topN, vl, headText, restText)
  {
    hide ImagesOrder, InRankOrder, Capped, AllReranked, Reordered;
    if query == "" || hits == [] {
      return hits;
    }
    if mode != VL {
      out := RerankText(query, hits, restText);
      return;
    }
    ImagesFollow(hits, topN, vl, headText, restText);
    out := RerankVl(hits, topN, vl, headText, restText);
  }

  /** rerank_images in VL mode. */
  method RerankVl(hits: seq<Hit>, topN: Option<nat>, vl: Reply, headText: Reply, restText: Reply) returns (out: seq<Hit>)
    ensures out == Capped(AllReranked(hits, vl, headText, restText), topN)
  {
    var withImg, fallback := [], [];
    for n := 0 to |hits|
      invariant withImg == Usable(hits[..n], true) && fallback == Usable(hits[..n], false)
    {
      assert hits[..n + 1][..n] == hits[..n];
      if hits[n].usable {
        withImg := withImg + [hits[n]];
      } else {
        fallback := fallback + [hits[n]];
      }
    }
    assert hits[..|hits|] == hits;
    out := [];
    if Head(withImg) != [] {
      out := RerankHead(Head(withImg), vl, headText);
    } else {
      NothingPicked(vl, headText);
    }
    out := out + Overflow(withImg);
    if fallback != [] {
      match restText
      case Failed => out := out + fallback;
      case Ranked(pairs) =>
        var ordered := Pick(fallback, pairs, Unscored);
        out := out + ordered;
    } else {
      NothingPicked(restText, restText);
    }
    if topN.Some? && topN.value < |out| {
      out := out[..topN.value];
    }
  }

  method RerankHead(head: seq<Hit>, vl: Reply, text: Reply) returns (out: seq<Hit>)
    ensures out == HeadReranked(head, vl, text)
  {
    match vl
    case Ranked(pairs) => out := Pick(head, pairs, ScoredBy("vl"));
    case Failed =>
      match text {
        case Ranked(pairs) => out := Pick(head, pairs, ScoredBy("text-fallback"));
        case Failed => out := head;
      }
  }

  lemma {:induction false} PickedEmpty(pairs: seq<Pair>, mark: Mark)
    ensures Picked([], pairs, mark) == []
  {
    if pairs != [] {
      PickedEmpty(pairs[..|pairs| - 1], mark);
    }
  }

  lemma NothingPicked(vl: Reply, text: Reply)
    ensures HeadReranked([], vl, text) == [] && Reordered([], text, Unscored) == []
  {
    if vl.Ranked? {
      PickedEmpty(vl.pairs, ScoredBy("vl"));
    }
    if text.Ranked? {
      PickedEmpty(text.pairs, ScoredBy("text-fallback"));
      PickedEmpty(text.pairs, Unscored);
    }
  }
}
