/** Which hits a reranking keeps, and how many. */
module RerankTheorems {
  import opened Folds
  import opened Options
  import opened Rerank

  /** A hit without what reranking writes on it. */
  function Base(h: Hit): Hit {
    h.(score := None, model := None)
  }

  function Bases(hits: seq<Hit>): seq<Hit> {
    seq(|hits|, i requires 0 <= i < |hits| => Base(hits[i]))
  }

  /** The indices of the pairs that are in range. */
  function Indices(pairs: seq<Pair>, size: nat): seq<int> {
    if pairs == [] then []
    else
      var before, last := Indices(pairs[..|pairs| - 1], size), pairs[|pairs| - 1];
      if 0 <= last.index < size then before + [last.index] else before
  }

  /** Every index from 0 to size - 1 exactly once; whatever is out of range is ignored. */
  ghost predicate Complete(pairs: seq<Pair>, size: nat) {
    forall i :: 0 <= i < size ==> multiset(Indices(pairs, size))[i] == 1
  }

  /** The hits can be told apart without the fields that reranking writes. */
  ghost predicate Distinguishable(hits: seq<Hit>) {
    forall i, j :: 0 <= i < j < |hits| ==> Base(hits[i]) != Base(hits[j])
  }

  /** The two lists hold the same hits, the added fields aside. */
  ghost predicate SameHits(a: seq<Hit>, b: seq<Hit>) {
    multiset(Bases(a)) == multiset(Bases(b))
  }

  lemma BasesAppend(a: seq<Hit>, b: seq<Hit>)
    ensures Bases(a + b) == Bases(a) + Bases(b)
  {
  }

  lemma BasesSnoc(a: seq<Hit>, h: Hit)
    ensures multiset(Bases(a + [h])) == multiset(Bases(a)) + multiset{Base(h)}
  {
    BasesAppend(a, [h]);
    assert Bases([h]) == [Base(h)];
  }

  /** A hit is picked as often as its index occurs. */
  lemma {:induction false} PickedCount(hits: seq<Hit>, pairs: seq<Pair>, mark: Mark, i: nat)
    requires Distinguishable(hits) && i < |hits|
    ensures multiset(Bases(Picked(hits, pairs, mark)))[Base(hits[i])] == multiset(Indices(pairs, |hits|))[i]
  {
    if pairs != [] {
      var init, last := pairs[..|pairs| - 1], pairs[|pairs| - 1];
      PickedCount(hits, init, mark, i);
      if 0 <= last.index < |hits| {
        BasesSnoc(Picked(hits, init, mark), Marked(hits[last.index], last.score, mark));
        assert Base(hits[last.index]) == Base(hits[i]) <==> last.index == i;
      }
    }
  }

  lemma {:induction false} PickedAreHits(hits: seq<Hit>, pairs: seq<Pair>, mark: Mark)
    ensures forall x :: x in Bases(Picked(hits, pairs, mark)) ==> x in Bases(hits)
  {
    if pairs != [] {
      var init, last := pairs[..|pairs| - 1], pairs[|pairs| - 1];
      PickedAreHits(hits, init, mark);
      if 0 <= last.index < |hits| {
        var h := Marked(hits[last.index], last.score, mark);
        BasesAppend(Picked(hits, init, mark), [h]);
        assert Bases(hits)[last.index] == Base(h);
      }
    }
  }

  lemma OnceEach(hits: seq<Hit>, i: nat)
    requires Distinguishable(hits) && i < |hits|
    ensures multiset(Bases(hits))[Base(hits[i])] == 1
  {
    var b := Bases(hits);
    assert b == b[..i] + [b[i]] + b[i + 1..];
    assert b[i] !in b[..i] && b[i] !in b[i + 1..];
  }

  /** Counts the indices whose hit is x. */
  function CountHit(hits: seq<Hit>, x: Hit): (int, int) -> int {
    (i: int, n: int) => if 0 <= i < |hits| && Base(hits[i]) == x then n + 1 else n
  }

  lemma CountSwaps(hits: seq<Hit>, x: Hit)
    ensures Swaps(CountHit(hits, x))
  {
  }

  lemma IndicesInRange(pairs: seq<Pair>, size: nat)
    ensures forall i :: i in Indices(pairs, size) ==> 0 <= i < size
  {
  }

  lemma {:induction false} PickedIsFold(hits: seq<Hit>, pairs: seq<Pair>, mark: Mark, x: Hit)
    ensures multiset(Bases(Picked(hits, pairs, mark)))[x] == Fold(CountHit(hits, x), 0, Indices(pairs, |hits|))
  {
    if pairs != [] {
      var init, last := pairs[..|pairs| - 1], pairs[|pairs| - 1];
      PickedIsFold(hits, init, mark, x);
      if 0 <= last.index < |hits| {
        BasesSnoc(Picked(hits, init, mark), Marked(hits[last.index], last.score, mark));
        CountSwaps(hits, x);
        FoldSnoc(CountHit(hits, x), 0, Indices(init, |hits|), last.index);
      }
    }
  }

  function Range(n: nat): seq<int> {
    seq(n, i => i)
  }

  lemma {:induction false} HitsAreFold(hits: seq<Hit>, n: nat, x: Hit)
    requires n <= |hits|
    ensures multiset(Bases(hits[..n]))[x] == Fold(CountHit(hits, x), 0, Range(n))
  {
    if n != 0 {
      HitsAreFold(hits, n - 1, x);
      assert hits[..n] == hits[..n - 1] + [hits[n - 1]];
      assert Range(n) == Range(n - 1) + [n - 1];
      BasesSnoc(hits[..n - 1], hits[n - 1]);
      CountSwaps(hits, x);
      FoldSnoc(CountHit(hits, x), 0, Range(n - 1), n - 1);
    }
  }

  lemma {:induction false} RangeOnce(n: nat, i: int)
    ensures multiset(Range(n))[i] == if 0 <= i < n then 1 else 0
  {
    if n != 0 {
      RangeOnce(n - 1, i);
      assert Range(n) == Range(n - 1) + [n - 1];
    }
  }

  lemma CompleteIsRange(pairs: seq<Pair>, size: nat)
    requires Complete(pairs, size)
    ensures multiset(Indices(pairs, size)) == multiset(Range(size))
  {
    var at, all := Indices(pairs, size), Range(size);
    IndicesInRange(pairs, size);
    forall i ensures multiset(at)[i] == multiset(all)[i] {
      RangeOnce(size, i);
      assert i in multiset(at) ==> i in at;
    }
  }

  /** Complete pairs give back the same hits. */
  lemma CompletePicks(hits: seq<Hit>, pairs: seq<Pair>, mark: Mark)
    requires Complete(pairs, |hits|)
    ensures SameHits(Picked(hits, pairs, mark), hits)
  {
    hide Picked, Indices, Range, Complete;
    CompleteIsRange(pairs, |hits|);
    assert hits[..|hits|] == hits;
    forall x ensures multiset(Bases(Picked(hits, pairs, mark)))[x] == multiset(Bases(hits))[x] {
      PickedIsFold(hits, pairs, mark, x);
      HitsAreFold(hits, |hits|, x);
      CountSwaps(hits, x);
      FoldForgetsOrder(CountHit(hits, x), 0, Indices(pairs, |hits|), Range(|hits|));
    }
  }

  /** Hits that can be told apart are given back by complete pairs only. */
  lemma PickedIff(hits: seq<Hit>, pairs: seq<Pair>, mark: Mark)
    ensures Complete(pairs, |hits|) ==> SameHits(Picked(hits, pairs, mark), hits)
    ensures Distinguishable(hits) && SameHits(Picked(hits, pairs, mark), hits) ==> Complete(pairs, |hits|)
  {
    if Complete(pairs, |hits|) {
      CompletePicks(hits, pairs, mark);
    }
    if Distinguishable(hits) && SameHits(Picked(hits, pairs, mark), hits) {
      forall i | 0 <= i < |hits| ensures multiset(Indices(pairs, |hits|))[i] == 1 {
        PickedCount(hits, pairs, mark, i);
        OnceEach(hits, i);
      }
    }
  }

  /** The reply names every one of size documents once, or the call failed. */
  ghost predicate Trusty(reply: Reply, size: nat) {
    reply.Failed? || Complete(reply.pairs, size)
  }

  lemma ReorderedIff(hits: seq<Hit>, reply: Reply, mark: Mark)
    ensures Trusty(reply, |hits|) ==> SameHits(Reordered(hits, reply, mark), hits)
    ensures Distinguishable(hits) && SameHits(Reordered(hits, reply, mark), hits) ==> Trusty(reply, |hits|)
    ensures forall x :: x in Bases(Reordered(hits, reply, mark)) ==> x in Bases(hits)
  {
    if reply.Ranked? {
      PickedIff(hits, reply.pairs, mark);
      PickedAreHits(hits, reply.pairs, mark);
    }
  }

  /**
   Text mode returns a permutation of the hits when the reply is complete or failed, and, where
   hits can be told apart at all, only then.
   */
  lemma TextConservesIff(hits: seq<Hit>, reply: Reply)
    ensures Trusty(reply, |hits|) ==> SameHits(Reordered(hits, reply, Scored), hits)
    ensures Distinguishable(hits) ==> (SameHits(Reordered(hits, reply, Scored), hits) <==> Trusty(reply, |hits|))
  {
    ReorderedIff(hits, reply, Scored);
  }

  // ---------------------------------------------------------------------
  // VL mode
  // ---------------------------------------------------------------------

  lemma {:induction false} UsableSplits(hits: seq<Hit>)
    ensures multiset(Bases(hits)) == multiset(Bases(Usable(hits, true))) + multiset(Bases(Usable(hits, false)))
    ensures forall h :: h in Usable(hits, true) ==> h.usable
    ensures forall h :: h in Usable(hits, false) ==> !h.usable
  {
    if hits != [] {
      var init, last := hits[..|hits| - 1], hits[|hits| - 1];
      UsableSplits(init);
      assert hits == init + [last];
      BasesAppend(init, [last]);
      BasesAppend(Usable(init, last.usable), [last]);
      assert Bases([last]) == [Base(last)];
    }
  }

  lemma {:induction false} UsableDistinguishable(hits: seq<Hit>, usable: bool)
    requires Distinguishable(hits)
    ensures Distinguishable(Usable(hits, usable))
    ensures forall h :: h in Usable(hits, usable) ==> h in hits
  {
    if hits != [] {
      var init, last := hits[..|hits| - 1], hits[|hits| - 1];
      UsableDistinguishable(init, usable);
      forall h | h in Usable(init, usable) ensures Base(h) != Base(last) {
        var i :| 0 <= i < |init| && init[i] == h;
        assert hits[i] == h;
      }
    }
  }

  lemma BasesKeepUsable(hits: seq<Hit>, usable: bool)
    requires forall h :: h in hits ==> h.usable == usable
    ensures forall x :: x in Bases(hits) ==> x.usable == usable
  {
  }

  /** Parts taken from different hits can only make up the whole part by part. */
  lemma PartsIff<T>(a: multiset<T>, b: multiset<T>, c: multiset<T>, a': multiset<T>, c': multiset<T>, inA: T -> bool)
    requires forall x :: (x in a || x in a') ==> inA(x)
    requires forall x :: (x in c || x in c') ==> !inA(x)
    ensures a' + b + c' == a + b + c <==> a' == a && c' == c
  {
    if a' + b + c' == a + b + c {
      forall x ensures a'[x] == a[x] && c'[x] == c[x] {
        assert (a' + b + c')[x] == (a + b + c)[x];
        if inA(x) {
          assert x !in c && x !in c';
        } else {
          assert x !in a && x !in a';
        }
      }
    }
  }

  ghost predicate HeadTrusty(vl: Reply, text: Reply, size: nat) {
    if vl.Ranked? then Complete(vl.pairs, size) else Trusty(text, size)
  }

  lemma HeadIff(head: seq<Hit>, vl: Reply, text: Reply)
    ensures HeadTrusty(vl, text, |head|) ==> SameHits(HeadReranked(head, vl, text), head)
    ensures Distinguishable(head) && SameHits(HeadReranked(head, vl, text), head) ==> HeadTrusty(vl, text, |head|)
    ensures forall x :: x in Bases(HeadReranked(head, vl, text)) ==> x in Bases(head)
  {
    if vl.Ranked? {
      PickedIff(head, vl.pairs, ScoredBy("vl"));
      PickedAreHits(head, vl.pairs, ScoredBy("vl"));
    } else {
      ReorderedIff(head, text, ScoredBy("text-fallback"));
    }
  }

  ghost predicate AllTrusty(hits: seq<Hit>, vl: Reply, headText: Reply, restText: Reply) {
    HeadTrusty(vl, headText, |Head(Usable(hits, true))|) && Trusty(restText, |Usable(hits, false)|)
  }

  lemma {:induction false} DistinctParts(hits: seq<Hit>)
    requires Distinguishable(hits)
    ensures Distinguishable(Head(Usable(hits, true))) && Distinguishable(Usable(hits, false))
  {
    UsableDistinguishable(hits, true);
    UsableDistinguishable(hits, false);
  }

  /**
   VL mode without a cap returns a permutation of the hits when each reply that is used names every
   document once, in every combination of failures; where hits can be told apart, only then.
   */
  lemma ImagesConserveIff(hits: seq<Hit>, vl: Reply, headText: Reply, restText: Reply)
    ensures AllTrusty(hits, vl, headText, restText) ==> SameHits(AllReranked(hits, vl, headText, restText), hits)
    ensures Distinguishable(hits) ==>
      (SameHits(AllReranked(hits, vl, headText, restText), hits) <==> AllTrusty(hits, vl, headText, restText))
  {
    hide HeadReranked, Reordered, Trusty, HeadTrusty, Usable, Distinguishable;
    var images, rest := Usable(hits, true), Usable(hits, false);
    UsableSplits(hits);
    if Distinguishable(hits) {
      DistinctParts(hits);
    }
    HeadIff(Head(images), vl, headText);
    ReorderedIff(rest, restText, Unscored);
    assert images == Head(images) + Overflow(images);
    BasesAppend(Head(images), Overflow(images));
    var head', rest' := HeadReranked(Head(images), vl, headText), Reordered(rest, restText, Unscored);
    BasesAppend(head' + Overflow(images), rest');
    BasesAppend(head', Overflow(images));
    BasesKeepUsable(Head(images), true);
    BasesKeepUsable(rest, false);
    PartsIff(multiset(Bases(Head(images))), multiset(Bases(Overflow(images))), multiset(Bases(rest)),
      multiset(Bases(head')), multiset(Bases(rest')), (h: Hit) => h.usable);
  }

  /** Image-backed hits come before all others, whatever the replies. */
  lemma ImagesFirst(hits: seq<Hit>, vl: Reply, headText: Reply, restText: Reply, topN: Option<nat>)
    ensures var out := Capped(AllReranked(hits, vl, headText, restText), topN);
      forall i, j :: 0 <= i < j < |out| && out[j].usable ==> out[i].usable
  {
    UsableSplits(hits);
    var images, rest := Usable(hits, true), Usable(hits, false);
    PickedUsable(Head(images), vl, headText, true);
    ReorderedUsable(rest, restText, Unscored, false);
  }

  lemma {:induction false} MarkKeepsUsable(hits: seq<Hit>, pairs: seq<Pair>, mark: Mark, usable: bool)
    requires forall h :: h in hits ==> h.usable == usable
    ensures forall h :: h in Picked(hits, pairs, mark) ==> h.usable == usable
  {
    if pairs != [] {
      MarkKeepsUsable(hits, pairs[..|pairs| - 1], mark, usable);
    }
  }

  lemma ReorderedUsable(hits: seq<Hit>, reply: Reply, mark: Mark, usable: bool)
    requires forall h :: h in hits ==> h.usable == usable
    ensures forall h :: h in Reordered(hits, reply, mark) ==> h.usable == usable
  {
    if reply.Ranked? {
      MarkKeepsUsable(hits, reply.pairs, mark, usable);
    }
  }

  lemma PickedUsable(hits: seq<Hit>, vl: Reply, text: Reply, usable: bool)
    requires forall h :: h in hits ==> h.usable == usable
    ensures forall h :: h in HeadReranked(hits, vl, text) ==> h.usable == usable
  {
    if vl.Ranked? {
      MarkKeepsUsable(hits, vl.pairs, ScoredBy("vl"), usable);
    } else {
      ReorderedUsable(hits, text, ScoredBy("text-fallback"), usable);
    }
  }

  // ---------------------------------------------------------------------
  // How many hits come back
  // ---------------------------------------------------------------------

  /** How many hits a reply over size documents gives back: its pairs in range, or all after a failure. */
  function Yield(reply: Reply, size: nat): nat {
    if reply.Failed? then size else |Indices(reply.pairs, size)|
  }

  /** The same for a batch that is shown to the VL reranker first. */
  function HeadYield(vl: Reply, text: Reply, size: nat): nat {
    Yield(if vl.Ranked? then vl else text, size)
  }

  lemma {:induction false} PickedLength(hits: seq<Hit>, pairs: seq<Pair>, mark: Mark)
    ensures |Picked(hits, pairs, mark)| == |Indices(pairs, |hits|)|
  {
    if pairs != [] {
      PickedLength(hits, pairs[..|pairs| - 1], mark);
    }
  }

  lemma ReorderedLength(hits: seq<Hit>, reply: Reply, mark: Mark)
    ensures |Reordered(hits, reply, mark)| == Yield(reply, |hits|)
  {
    if reply.Ranked? {
      PickedLength(hits, reply.pairs, mark);
    }
  }

  lemma HeadLength(head: seq<Hit>, vl: Reply, text: Reply)
    ensures |HeadReranked(head, vl, text)| == HeadYield(vl, text, |head|)
  {
    if vl.Ranked? {
      PickedLength(head, vl.pairs, ScoredBy("vl"));
    } else {
      ReorderedLength(head, text, ScoredBy("text-fallback"));
    }
  }

  lemma {:induction false} UsableLength(hits: seq<Hit>)
    ensures |Usable(hits, true)| + |Usable(hits, false)| == |hits|
  {
    if hits != [] {
      UsableLength(hits[..|hits| - 1]);
    }
  }

  /**
   VL mode: with given in-range pairs for the batch and for the hits without an image, the number
   stays exactly when as many come back as were asked about; under a cap, also when more come back
   and the cap happens to cut them to the number received.
   */
  predicate SameCount(asked: nat, given: nat, total: nat, topN: Option<nat>) {
    match topN
    case None => given == asked
    case Some(cap) => given >= asked && (cap == total || (cap > total && given == asked))
  }

  /** When rerank_images returns as many hits as it received: decided by its arguments and the replies. */
  predicate CountKept(mode: Mode, query: string, hits: seq<Hit>, topN: Option<nat>,
                      vl: Reply, headText: Reply, restText: Reply) {
    var head, rest := |Head(Usable(hits, true))|, |Usable(hits, false)|;
    || query == ""
    || hits == []
    || (mode == Text && Yield(restText, |hits|) == |hits|)
    || (mode == VL && SameCount(head + rest, HeadYield(vl, headText, head) + Yield(restText, rest), |hits|, topN))
  }

  /** rerank_images returns as many hits as it received under this condition and no other. */
  lemma SameNumberIff(mode: Mode, query: string, hits: seq<Hit>, topN: Option<nat>,
                      vl: Reply, headText: Reply, restText: Reply)
    ensures |Returned(mode, query, hits, topN, vl, headText, restText)| == |hits|
      <==> CountKept(mode, query, hits, topN, vl, headText, restText)
  {
    hide Picked, Usable, Indices, HeadReranked, Reordered, Yield, HeadYield;
    var images, rest := Usable(hits, true), Usable(hits, false);
    UsableLength(hits);
    ReorderedLength(hits, restText, Scored);
    HeadLength(Head(images), vl, headText);
    ReorderedLength(rest, restText, Unscored);
  }

  /** No document is named twice. */
  predicate NoRepeats(reply: Reply, size: nat) {
    reply.Ranked? ==>
      var at := Indices(reply.pairs, size); forall i, j :: 0 <= i < j < |at| ==> at[i] != at[j]
  }

  lemma {:induction false} CountsOfDistinct(at: seq<int>, x: int)
    requires forall i, j :: 0 <= i < j < |at| ==> at[i] != at[j]
    ensures multiset(at)[x] <= 1
  {
    if at != [] {
      var init, last := at[..|at| - 1], at[|at| - 1];
      CountsOfDistinct(init, x);
      assert at == init + [last];
      assert last !in init;
    }
  }

  /** Distinct indices below size are all of them exactly when there are as many. */
  lemma DistinctOnce(at: seq<int>, size: nat)
    requires forall i, j :: 0 <= i < j < |at| ==> at[i] != at[j]
    requires forall x :: x in at ==> 0 <= x < size
    ensures |at| <= size
    ensures |at| == size <==> multiset(at) == multiset(Range(size))
  {
    var some, all := multiset(at), multiset(Range(size));
    forall x ensures some[x] <= all[x] {
      CountsOfDistinct(at, x);
      RangeOnce(size, x);
      assert x in some ==> x in at;
    }
    assert all == some + (all - some);
    assert |all| == size && |some| == |at|;
  }

  /** A reply that names no document twice gives back as many as it was asked about exactly when it is complete. */
  lemma YieldIff(reply: Reply, size: nat)
    requires NoRepeats(reply, size)
    ensures Yield(reply, size) <= size
    ensures Yield(reply, size) == size <==> Trusty(reply, size)
  {
    if reply.Ranked? {
      var at := Indices(reply.pairs, size);
      IndicesInRange(reply.pairs, size);
      DistinctOnce(at, size);
      forall i | 0 <= i < size ensures multiset(Range(size))[i] == 1 {
        RangeOnce(size, i);
      }
      if Complete(reply.pairs, size) {
        CompleteIsRange(reply.pairs, size);
      }
    }
  }

  /**
   As long as no reply names a document twice, counting is enough: before the cap the number is
   kept exactly when every reply that is used names every document, so that no hit is lost.
   */
  lemma CountShowsLoss(hits: seq<Hit>, vl: Reply, headText: Reply, restText: Reply)
    requires NoRepeats(if vl.Ranked? then vl else headText, |Head(Usable(hits, true))|)
    requires NoRepeats(restText, |Usable(hits, false)|)
    ensures |AllReranked(hits, vl, headText, restText)| <= |hits|
    ensures |AllReranked(hits, vl, headText, restText)| == |hits| <==> AllTrusty(hits, vl, headText, restText)
  {
    hide Picked, Usable, Indices, HeadReranked, Reordered, Yield, NoRepeats, Complete;
    var images, rest := Usable(hits, true), Usable(hits, false);
    UsableLength(hits);
    HeadLength(Head(images), vl, headText);
    ReorderedLength(rest, restText, Unscored);
    YieldIff(if vl.Ranked? then vl else headText, |Head(images)|);
    YieldIff(restText, |rest|);
  }

  /** In general counting is not enough: a ranking that repeats one document hides that it lost another. */
  lemma RepeatHidesLoss()
    ensures var a, b, vl := Hit("a", true, None, None), Hit("b", true, None, None), Ranked([Pair(0, 0.5), Pair(0, 0.25)]);
      && |Returned(VL, "q", [a, b], None, vl, Failed, Failed)| == 2
      && forall h :: h in Returned(VL, "q", [a, b], None, vl, Failed, Failed) ==> h.id == "a"
  {
    var a, b := Hit("a", true, None, None), Hit("b", true, None, None);
    var one, two := [Pair(0, 0.5)], [Pair(0, 0.5), Pair(0, 0.25)];
    assert [a, b][..1] == [a] && [a][..0] == [];
    assert Usable([a], true) == [a] && Usable([a], false) == [];
    assert Usable([a, b], true) == [a, b] && Usable([a, b], false) == [];
    assert two[..1] == one && one[..0] == [];
    assert Picked([a, b], one, ScoredBy("vl")) == [Marked(a, 0.5, ScoredBy("vl"))];
  }

  /** A short ranking drops hits, although the call promises to return as many as it got. */
  lemma ShortRankingDropsHits()
    ensures var a, b := Hit("a", true, None, None), Hit("b", true, None, None);
      |AllReranked([a, b], Ranked([Pair(1, 0.5)]), Failed, Failed)| == 1
  {
    var a, b := Hit("a", true, None, None), Hit("b", true, None, None);
    assert [a, b][..1] == [a] && [a][..0] == [];
    assert Usable([a], true) == [a] && Usable([a], false) == [];
    assert Usable([a, b], true) == [a, b] && Usable([a, b], false) == [];
    assert Picked([a, b], [], ScoredBy("vl")) == [];
    assert [Pair(1, 0.5)][..0] == [];
  }
}
