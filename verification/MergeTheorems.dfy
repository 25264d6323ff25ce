/** Cutting each branch to top_k before the merge loses nothing of the top_k after it. */
module MergeTheorems {
  import opened Options
  import opened Sorting
  import opened Merge

  lemma BetterFirstIsOrder()
    ensures TotalPreorder(BetterFirst)
  {
  }

  ghost predicate AllKeyed(s: seq<Hit>) {
    forall i :: 0 <= i < |s| ==> Keyed(s[i])
  }

  /** What one retrieval branch returns: distinct images, best score first. */
  ghost predicate Ranking(s: seq<Hit>) {
    AllKeyed(s) && DistinctIds(s) && Sorted(BetterFirst, s)
  }

  /** h is the best-scoring hit of its image among hits. */
  ghost predicate BestOf(h: Hit, hits: seq<Hit>) {
    h in hits && forall g :: g in hits && Keyed(g) && Id(g) == Id(h) ==> Score(g) <= Score(h)
  }

  /** The table holds one best entry for each image of hits. */
  ghost predicate TableOf(table: seq<Hit>, hits: seq<Hit>) {
    && AllKeyed(table) && DistinctIds(table)
    && (forall h :: h in table ==> BestOf(h, hits))
    && (forall g :: g in hits && Keyed(g) ==> HasId(table, Id(g)))
  }

  lemma AbsorbNew(table: seq<Hit>, hits: seq<Hit>, h: Hit)
    requires TableOf(table, hits) && Keyed(h) && !HasId(table, Id(h))
    ensures TableOf(table + [h], hits + [h])
  {
    var t := table + [h];
    forall x | x in t ensures BestOf(x, hits + [h]) {
      if x in table {
        var i :| 0 <= i < |table| && table[i] == x;
        assert BestOf(x, hits);
      }
    }
    forall g | g in hits + [h] && Keyed(g) ensures HasId(t, Id(g)) {
      if g in hits {
        var i :| 0 <= i < |table| && Id(table[i]) == Id(g);
        assert Id(t[i]) == Id(g);
      } else {
        assert t[|table|] == h;
      }
    }
  }

  lemma ImprovedIsBest(entry: Hit, hits: seq<Hit>, h: Hit)
    requires BestOf(entry, hits)
    ensures BestOf(Improved(entry, h), hits + [h])
  {
  }

  lemma AbsorbKnown(table: seq<Hit>, hits: seq<Hit>, h: Hit)
    requires TableOf(table, hits) && Keyed(h) && HasId(table, Id(h))
    ensures TableOf(Improve(table, h), hits + [h])
  {
    var t := Improve(table, h);
    ImproveAt(table, h);
    forall x | x in t ensures BestOf(x, hits + [h]) {
      var i :| 0 <= i < |t| && t[i] == x;
      assert table[i] in table;
      ImprovedIsBest(table[i], hits, h);
    }
    forall g | g in hits + [h] && Keyed(g) ensures HasId(t, Id(g)) {
      assert HasId(table, Id(g));
      var i :| 0 <= i < |table| && Id(table[i]) == Id(g);
      assert Id(t[i]) == Id(g);
    }
    assert forall i :: 0 <= i < |t| ==> Id(t[i]) == Id(table[i]);
    assert AllKeyed(t) && DistinctIds(t);
  }

  lemma AbsorbKeepsTable(table: seq<Hit>, hits: seq<Hit>, h: Hit)
    requires TableOf(table, hits)
    ensures TableOf(Absorb(table, h), hits + [h])
  {
    if !Keyed(h) {
      forall x | x in table ensures BestOf(x, hits + [h]) {
        assert BestOf(x, hits);
      }
    } else if HasId(table, Id(h)) {
      AbsorbKnown(table, hits, h);
    } else {
      AbsorbNew(table, hits, h);
    }
  }

  lemma {:induction false} AbsorbAllIsTable(table: seq<Hit>, before: seq<Hit>, hits: seq<Hit>)
    requires TableOf(table, before)
    ensures TableOf(AbsorbAll(table, hits), before + hits)
    decreases |hits|
  {
    if hits == [] {
      assert before + hits == before;
    } else {
      AbsorbKeepsTable(table, before, hits[0]);
      AbsorbAllIsTable(Absorb(table, hits[0]), before + [hits[0]], hits[1..]);
      assert before + [hits[0]] + hits[1..] == before + hits;
    }
  }

  lemma OnlyOnce(s: seq<Hit>, a: nat)
    requires DistinctIds(s) && a < |s|
    ensures multiset(s)[s[a]] == 1
  {
    assert s == s[..a] + [s[a]] + s[a + 1..];
    assert s[a] !in s[..a] && s[a] !in s[a + 1..];
  }

  lemma AtLeastTwice(t: seq<Hit>, i: nat, j: nat)
    requires i < j < |t| && t[i] == t[j]
    ensures multiset(t)[t[i]] >= 2
  {
    assert t == t[..j] + [t[j]] + t[j + 1..];
    assert t[..j][i] == t[i];
    assert t[i] in multiset(t[..j]);
  }

  lemma PermutedDistinct(s: seq<Hit>, t: seq<Hit>)
    requires multiset(s) == multiset(t) && DistinctIds(s)
    ensures DistinctIds(t)
  {
    forall i, j | 0 <= i < j < |t| ensures Id(t[i]) != Id(t[j]) {
      assert t[i] in multiset(s) && t[j] in multiset(s);
      var a :| 0 <= a < |s| && s[a] == t[i];
      var b :| 0 <= b < |s| && s[b] == t[j];
      if t[i] == t[j] {
        AtLeastTwice(t, i, j);
        OnlyOnce(s, a);
      } else {
        assert a < b || b < a;
      }
    }
  }

  /**
   The merge is exactly what its description says: the union by image id, each
   image once with the best-scoring of its hits, in descending score order.
   */
  lemma MergedIsUnionOfBest(captionHits: seq<Hit>, vlHits: seq<Hit>)
    ensures Ranking(Merged(captionHits, vlHits))
    ensures TableOf(Merged(captionHits, vlHits), captionHits + vlHits)
  {
    var hits := captionHits + vlHits;
    var table := AbsorbAll([], hits);
    AbsorbAllIsTable([], [], hits);
    assert [] + hits == hits;
    BetterFirstIsOrder();
    SortSorted(BetterFirst, table);
    SortPermutes(BetterFirst, table);
    var m := Merged(captionHits, vlHits);
    PermutedDistinct(table, m);
    forall h ensures h in m <==> h in table {
      assert h in m <==> h in multiset(m);
      assert h in table <==> h in multiset(table);
    }
    forall i | 0 <= i < |m| ensures Keyed(m[i]) {
      assert m[i] in m;
    }
    forall g | g in hits && Keyed(g) ensures HasId(m, Id(g)) {
      var i :| 0 <= i < |table| && Id(table[i]) == Id(g);
      assert table[i] in table;
      var j :| 0 <= j < |m| && m[j] == table[i];
      assert Id(m[j]) == Id(g);
    }
  }

  // ---------------------------------------------------------------------
  // Ranks by counting
  // ---------------------------------------------------------------------

  /** The images that have a hit scoring at least v. */
  function IdsAbove(s: seq<Hit>, v: real): set<string> {
    set i | 0 <= i < |s| && Keyed(s[i]) && Score(s[i]) >= v :: Id(s[i])
  }

  function Ids(s: seq<Hit>): set<string> {
    set i | 0 <= i < |s| :: Id(s[i])
  }

  lemma {:induction false} IdsSize(s: seq<Hit>)
    requires DistinctIds(s)
    ensures |Ids(s)| == |s|
  {
    if s != [] {
      var n := |s| - 1;
      var front := s[..n];
      IdsSize(front);
      forall id ensures id in Ids(s) <==> id in Ids(front) + {Id(s[n])} {
        if id in Ids(s) {
          var i :| 0 <= i < |s| && Id(s[i]) == id;
          assert i < n ==> front[i] == s[i];
        }
      }
      assert Ids(s) == Ids(front) + {Id(s[n])};
      assert Id(s[n]) !in Ids(front);
    }
  }

  lemma SubsetSize(a: set<string>, b: set<string>)
    requires a <= b
    ensures |a| <= |b|
  {
    assert b == a + (b - a);
  }

  /** In a ranking, the i-th score is at least v exactly when more than i images are. */
  lemma RankByCount(s: seq<Hit>, v: real, i: nat)
    requires Ranking(s)
    ensures i < |s| && Score(s[i]) >= v <==> |IdsAbove(s, v)| > i
  {
    if i < |s| && Score(s[i]) >= v {
      var head := s[..i + 1];
      IdsSize(head);
      forall j | 0 <= j <= i ensures Score(s[j]) >= v {
        assert j < i ==> BetterFirst(s[j], s[i]);
      }
      assert Ids(head) <= IdsAbove(s, v) by {
        forall id | id in Ids(head) ensures id in IdsAbove(s, v) {
          var j :| 0 <= j < |head| && Id(head[j]) == id;
          assert Id(s[j]) == id;
        }
      }
      SubsetSize(Ids(head), IdsAbove(s, v));
    } else {
      var n := if i < |s| then i else |s|;
      IdsSize(s[..n]);
      forall j | 0 <= j < |s| && Score(s[j]) >= v ensures j < n {
        assert i < j ==> BetterFirst(s[i], s[j]);
      }
      assert IdsAbove(s, v) <= Ids(s[..n]) by {
        forall id | id in IdsAbove(s, v) ensures id in Ids(s[..n]) {
          var j :| 0 <= j < |s| && Keyed(s[j]) && Score(s[j]) >= v && Id(s[j]) == id;
          assert s[..n][j] == s[j];
        }
      }
      SubsetSize(IdsAbove(s, v), Ids(s[..n]));
    }
  }

  /** The merge has an image above v exactly when one of the two branches does. */
  lemma MergedAbove(a: seq<Hit>, b: seq<Hit>, v: real)
    ensures IdsAbove(Merged(a, b), v) == IdsAbove(a, v) + IdsAbove(b, v)
  {
    var m := Merged(a, b);
    MergedIsUnionOfBest(a, b);
    forall id ensures id in IdsAbove(m, v) <==> id in IdsAbove(a, v) + IdsAbove(b, v) {
      if id in IdsAbove(m, v) {
        var i :| 0 <= i < |m| && Keyed(m[i]) && Score(m[i]) >= v && Id(m[i]) == id;
        assert m[i] in m && m[i] in a + b;
        if m[i] in a {
          var j :| 0 <= j < |a| && a[j] == m[i];
          assert id in IdsAbove(a, v);
        } else {
          var j :| 0 <= j < |b| && b[j] == m[i];
          assert id in IdsAbove(b, v);
        }
      }
      if id in IdsAbove(a, v) + IdsAbove(b, v) {
        var g :| g in a + b && Keyed(g) && Score(g) >= v && Id(g) == id;
        var i :| 0 <= i < |m| && Id(m[i]) == id;
        assert m[i] in m && BestOf(m[i], a + b);
      }
    }
  }

  lemma TailBelow(s: seq<Hit>, limit: nat)
    requires Ranking(s) && 0 < limit < |s|
    ensures forall i :: limit <= i < |s| ==> Score(s[i]) <= Score(s[limit - 1])
  {
  }

  /** Cutting a ranking at limit keeps either all images above v, or limit of them. */
  lemma CutAbove(s: seq<Hit>, limit: nat, v: real)
    requires Ranking(s)
    ensures IdsAbove(Take(s, limit), v) <= IdsAbove(s, v)
    ensures IdsAbove(Take(s, limit), v) == IdsAbove(s, v) || |IdsAbove(Take(s, limit), v)| >= limit
  {
    var t := Take(s, limit);
    assert forall i :: 0 <= i < |t| ==> t[i] == s[i];
    assert Ranking(t);
    if 0 < limit < |s| {
      TailBelow(s, limit);
    }
    if 0 < limit < |s| && Score(s[limit - 1]) >= v {
      RankByCount(t, v, limit - 1);
    } else {
      forall id | id in IdsAbove(s, v) ensures id in IdsAbove(t, v) || limit == 0 {
        var i :| 0 <= i < |s| && Keyed(s[i]) && Score(s[i]) >= v && Id(s[i]) == id;
        assert i < limit ==> t[i] == s[i];
      }
    }
  }

  /** Above any score, the cut merge and the full merge agree up to limit images. */
  lemma CountsAgree(a: seq<Hit>, b: seq<Hit>, limit: nat, v: real)
    requires Ranking(a) && Ranking(b)
    ensures var cut, full := IdsAbove(Merged(Take(a, limit), Take(b, limit)), v), IdsAbove(Merged(a, b), v);
      |cut| == |full| || (|cut| >= limit && |full| >= limit)
  {
    MergedAbove(a, b, v);
    MergedAbove(Take(a, limit), Take(b, limit), v);
    CutAbove(a, limit, v);
    CutAbove(b, limit, v);
    var cut, full := IdsAbove(Merged(Take(a, limit), Take(b, limit)), v), IdsAbove(Merged(a, b), v);
    SubsetSize(cut, full);
    SubsetSize(IdsAbove(Take(a, limit), v), cut);
    SubsetSize(IdsAbove(Take(b, limit), v), cut);
  }

  function Scores(s: seq<Hit>): seq<real> {
    seq(|s|, i requires 0 <= i < |s| => Score(s[i]))
  }

  lemma ScoresFollow(x: seq<Hit>, y: seq<Hit>, i: nat)
    requires Ranking(x) && Ranking(y) && i < |x|
    requires |IdsAbove(x, Score(x[i]))| > i ==> |IdsAbove(y, Score(x[i]))| > i
    ensures i < |y| && Score(y[i]) >= Score(x[i])
  {
    RankByCount(x, Score(x[i]), i);
    RankByCount(y, Score(x[i]), i);
  }

  /**
   With no time filter each branch is asked for its best top_k; the scores of the
   merged list cut to top_k are those of merging the two complete rankings.
   */
  lemma TruncatedMergeIsExact(a: seq<Hit>, b: seq<Hit>, topK: nat)
    requires Ranking(a) && Ranking(b)
    ensures var limit := QdrantLimit(topK, false);
      Scores(Take(Merged(Take(a, limit), Take(b, limit)), topK)) == Scores(Take(Merged(a, b), topK))
  {
    var cut, full := Merged(Take(a, topK), Take(b, topK)), Merged(a, b);
    var x, y := Take(cut, topK), Take(full, topK);
    assert |x| == |y| by {
      if |cut| < topK {
        RanksAgree(a, b, topK, |cut|);
      }
      if |full| < topK {
        RanksAgree(a, b, topK, |full|);
      }
    }
    forall i | 0 <= i < |x| ensures Scores(x)[i] == Scores(y)[i] {
      RanksAgree(a, b, topK, i);
      assert x[i] == cut[i] && y[i] == full[i];
    }
  }

  /** Position by position below top_k, the two merges have the same score or neither has one. */
  lemma RanksAgree(a: seq<Hit>, b: seq<Hit>, topK: nat, i: nat)
    requires Ranking(a) && Ranking(b) && i < topK
    ensures var cut, full := Merged(Take(a, topK), Take(b, topK)), Merged(a, b);
      (i < |cut| <==> i < |full|) && (i < |cut| && i < |full| ==> Score(cut[i]) == Score(full[i]))
  {
    var cut, full := Merged(Take(a, topK), Take(b, topK)), Merged(a, b);
    MergedIsUnionOfBest(a, b);
    MergedIsUnionOfBest(Take(a, topK), Take(b, topK));
    if i < |cut| {
      CountsAgree(a, b, topK, Score(cut[i]));
      ScoresFollow(cut, full, i);
    }
    if i < |full| {
      CountsAgree(a, b, topK, Score(full[i]));
      ScoresFollow(full, cut, i);
    }
  }

  // ---------------------------------------------------------------------
  // Ties
  // ---------------------------------------------------------------------

  /** x is the first among the best-scoring hits of its image. */
  ghost predicate FirstBest(x: Hit, hits: seq<Hit>) {
    exists i :: 0 <= i < |hits| && hits[i] == x &&
      forall j :: 0 <= j < i && Keyed(hits[j]) && Id(hits[j]) == Id(x) ==> Score(hits[j]) < Score(x)
  }

  /** The image a has a hit before image b has one. */
  ghost predicate SeenEarlier(hits: seq<Hit>, a: string, b: string) {
    exists i :: 0 <= i < |hits| && Keyed(hits[i]) && Id(hits[i]) == a && forall j :: 0 <= j <= i && Keyed(hits[j]) ==> Id(hits[j]) != b
  }

  /** The entries are first among the best, in the order in which their images were first seen. */
  ghost predicate Tidy(table: seq<Hit>, hits: seq<Hit>) {
    && (forall a :: 0 <= a < |table| ==> FirstBest(table[a], hits))
    && (forall a, b :: 0 <= a < b < |table| ==> SeenEarlier(hits, Id(table[a]), Id(table[b])))
  }

  lemma StillFirst(x: Hit, hits: seq<Hit>, h: Hit)
    requires FirstBest(x, hits)
    ensures FirstBest(x, hits + [h])
  {
    var i :| 0 <= i < |hits| && hits[i] == x && forall j :: 0 <= j < i && Keyed(hits[j]) && Id(hits[j]) == Id(x) ==> Score(hits[j]) < Score(x);
    assert (hits + [h])[i] == x;
  }

  lemma StillEarlier(hits: seq<Hit>, h: Hit, a: string, b: string)
    requires SeenEarlier(hits, a, b)
    ensures SeenEarlier(hits + [h], a, b)
  {
    var i :| 0 <= i < |hits| && Keyed(hits[i]) && Id(hits[i]) == a && forall j :: 0 <= j <= i && Keyed(hits[j]) ==> Id(hits[j]) != b;
    assert Id((hits + [h])[i]) == a;
  }

  lemma NewIsFirst(table: seq<Hit>, hits: seq<Hit>, h: Hit)
    requires TableOf(table, hits) && Keyed(h) && !HasId(table, Id(h))
    ensures FirstBest(h, hits + [h])
    ensures forall a :: 0 <= a < |table| ==> SeenEarlier(hits + [h], Id(table[a]), Id(h))
  {
    var more := hits + [h];
    assert more[|hits|] == h;
    forall j | 0 <= j < |hits| && Keyed(hits[j]) ensures Id(more[j]) != Id(h) {
      assert hits[j] in hits;
    }
    forall a | 0 <= a < |table| ensures SeenEarlier(more, Id(table[a]), Id(h)) {
      assert table[a] in table && BestOf(table[a], hits);
      var i :| 0 <= i < |hits| && hits[i] == table[a];
      assert more[i] == table[a];
    }
  }

  lemma BetterIsFirst(entry: Hit, hits: seq<Hit>, h: Hit)
    requires BestOf(entry, hits) && FirstBest(entry, hits)
    ensures FirstBest(Improved(entry, h), hits + [h])
  {
    if Improved(entry, h) == entry {
      StillFirst(entry, hits, h);
    } else {
      assert (hits + [h])[|hits|] == h;
      forall j | 0 <= j < |hits| && Keyed(hits[j]) && Id(hits[j]) == Id(h) ensures Score(hits[j]) < Score(h) {
        assert hits[j] in hits;
      }
    }
  }

  lemma AbsorbKeepsTidy(table: seq<Hit>, hits: seq<Hit>, h: Hit)
    requires TableOf(table, hits) && Tidy(table, hits)
    ensures Tidy(Absorb(table, h), hits + [h])
  {
    var t := Absorb(table, h);
    hide FirstBest, SeenEarlier, Improve;
    if !Keyed(h) || !HasId(table, Id(h)) {
      if Keyed(h) {
        NewIsFirst(table, hits, h);
      }
      forall a | 0 <= a < |table| ensures FirstBest(table[a], hits + [h]) {
        StillFirst(table[a], hits, h);
      }
    } else {
      ImproveAt(table, h);
      forall a | 0 <= a < |table| ensures FirstBest(t[a], hits + [h]) && Id(t[a]) == Id(table[a]) {
        assert table[a] in table;
        BetterIsFirst(table[a], hits, h);
      }
    }
    forall a, b | 0 <= a < b < |table| ensures SeenEarlier(hits + [h], Id(table[a]), Id(table[b])) {
      StillEarlier(hits, h, Id(table[a]), Id(table[b]));
    }
  }

  lemma {:induction false} AbsorbAllIsTidy(table: seq<Hit>, before: seq<Hit>, hits: seq<Hit>)
    requires TableOf(table, before) && Tidy(table, before)
    ensures Tidy(AbsorbAll(table, hits), before + hits)
    decreases |hits|
  {
    hide TableOf, Tidy, Absorb;
    if hits == [] {
      assert before + hits == before;
    } else {
      AbsorbKeepsTable(table, before, hits[0]);
      AbsorbKeepsTidy(table, before, hits[0]);
      AbsorbAllIsTidy(Absorb(table, hits[0]), before + [hits[0]], hits[1..]);
      assert before + [hits[0]] + hits[1..] == before + hits;
    }
  }

  /**
   Ties: each image is represented by the first of its best-scoring hits, captions before images,
   and images with the same score come in the order in which they were first seen.
   */
  lemma TiesKeepOrder(captionHits: seq<Hit>, vlHits: seq<Hit>)
    ensures var m, hits := Merged(captionHits, vlHits), captionHits + vlHits;
      && (forall i :: 0 <= i < |m| ==> FirstBest(m[i], hits))
      && (forall i, j :: 0 <= i < j < |m| && Score(m[i]) == Score(m[j]) ==> SeenEarlier(hits, Id(m[i]), Id(m[j])))
  {
    var m, hits := Merged(captionHits, vlHits), captionHits + vlHits;
    var table := AbsorbAll([], hits);
    AbsorbAllIsTable([], [], hits);
    AbsorbAllIsTidy([], [], hits);
    assert [] + hits == hits;
    SortPermutes(BetterFirst, table);
    PermutedDistinct(table, m);
    hide FirstBest, SeenEarlier, AbsorbAll;
    forall i | 0 <= i < |m| ensures FirstBest(m[i], hits) {
      InTable(m, table, i);
    }
    forall i, j | 0 <= i < j < |m| && Score(m[i]) == Score(m[j]) ensures SeenEarlier(hits, Id(m[i]), Id(m[j])) {
      TiesInTable(m, table, i, j);
    }
  }

  lemma InTable(m: seq<Hit>, table: seq<Hit>, i: nat)
    requires multiset(m) == multiset(table) && i < |m|
    ensures exists a :: 0 <= a < |table| && table[a] == m[i]
  {
    assert m[i] in multiset(table);
  }

  lemma TiesInTable(m: seq<Hit>, table: seq<Hit>, i: nat, j: nat)
    requires m == StableSort(BetterFirst, table) && DistinctIds(m) && i < j < |m| && Score(m[i]) == Score(m[j])
    ensures exists a, b :: 0 <= a < b < |table| && table[a] == m[i] && table[b] == m[j]
  {
    BetterFirstIsOrder();
    SortPermutes(BetterFirst, table);
    FirstOfTwo(m, i, j);
    hide SeenFirst, DistinctIds, StableSort;
    SortKeepsFirst(BetterFirst, table, m[i], m[j]);
    assert m[j] in multiset(m) && m[j] in multiset(table);
    FirstThen(table, m[i], m[j]);
  }

  lemma FirstOfTwo(m: seq<Hit>, i: nat, j: nat)
    requires DistinctIds(m) && i < j < |m|
    ensures SeenFirst(m, m[i], m[j]) && m[i] != m[j]
  {
    assert Id(m[i]) != Id(m[j]);
    forall k | 0 <= k < i ensures m[..i][k] != m[j] {
      assert Id(m[k]) != Id(m[j]);
    }
  }
}
