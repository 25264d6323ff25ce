/**
 Hybrid image retrieval: the caption ranking and the image-vector ranking are
 merged by image id, keeping the better score, and cut to top_k afterwards.
 */
module Merge {
  import opened Options
  import opened Sorting

  /** A Qdrant hit: the image_id of its payload and its score, either possibly absent. */
  datatype Hit = Hit(imageId: Option<string>, score: Option<real>, branch: string)

  function Score(h: Hit): real {
    if h.score.Some? then h.score.value else 0.0
  }

  /** Hits without an image id (absent or empty) are skipped by the merge. */
  predicate Keyed(h: Hit) {
    h.imageId.Some? && h.imageId.value != ""
  }

  function Id(h: Hit): string {
    if h.imageId.Some? then h.imageId.value else ""
  }

  /** _qdrant_limit */
  function QdrantLimit(topK: nat, hasTimeFilter: bool): nat {
    if hasTimeFilter then topK * 3 else topK
  }

  predicate BetterFirst(a: Hit, b: Hit) {
    Score(a) >= Score(b)
  }

  predicate HasId(table: seq<Hit>, id: string) {
    exists i :: 0 <= i < |table| && Id(table[i]) == id
  }

  /** The table with the entry of h's id replaced when h scores strictly higher. */
  function Improve(table: seq<Hit>, h: Hit): seq<Hit> {
    if table == [] then []
    else if Id(table[0]) == Id(h) then [if Score(h) > Score(table[0]) then h else table[0]] + table[1..]
    else [table[0]] + Improve(table[1..], h)
  }

  /** One hit entering the table of best entries, which is kept in first-seen order. */
  function Absorb(table: seq<Hit>, h: Hit): seq<Hit> {
    if !Keyed(h) then table
    else if HasId(table, Id(h)) then Improve(table, h)
    else table + [h]
  }

  function AbsorbAll(table: seq<Hit>, hits: seq<Hit>): seq<Hit>
    decreases |hits|
  {
    if hits == [] then table else AbsorbAll(Absorb(table, hits[0]), hits[1..])
  }

  function Merged(captionHits: seq<Hit>, vlHits: seq<Hit>): seq<Hit> {
    StableSort(BetterFirst, AbsorbAll([], captionHits + vlHits))
  }

  function Take(s: seq<Hit>, k: nat): seq<Hit> {
    if |s| <= k then s else s[..k]
  }

  // ---------------------------------------------------------------------
  // The dictionary loop computes the table
  // ---------------------------------------------------------------------

  /** The values of a dictionary in insertion order. */
  function Values(order: seq<string>, seen: map<string, Hit>): seq<Hit>
    requires forall i :: 0 <= i < |order| ==> order[i] in seen
  {
    if order == [] then [] else [seen[order[0]]] + Values(order[1..], seen)
  }

  predicate Dictionary(order: seq<string>, seen: map<string, Hit>) {
    && (forall i :: 0 <= i < |order| ==> order[i] in seen && Id(seen[order[i]]) == order[i])
    && (forall i, j :: 0 <= i < j < |order| ==> order[i] != order[j])
  }

  ghost predicate KeysListed(order: seq<string>, seen: map<string, Hit>) {
    forall k :: k in seen ==> k in order
  }

  lemma {:induction false} ValuesAt(order: seq<string>, seen: map<string, Hit>)
    requires Dictionary(order, seen)
    ensures |Values(order, seen)| == |order|
    ensures forall i :: 0 <= i < |order| ==> Values(order, seen)[i] == seen[order[i]]
  {
    if order != [] {
      ValuesAt(order[1..], seen);
    }
  }

  lemma {:induction false} AppendValue(order: seq<string>, seen: map<string, Hit>, key: string, h: Hit)
    requires Dictionary(order, seen) && KeysListed(order, seen) && key !in seen && Id(h) == key
    ensures Dictionary(order + [key], seen[key := h])
    ensures Values(order + [key], seen[key := h]) == Values(order, seen) + [h]
    ensures !HasId(Values(order, seen), key)
  {
    var order', seen' := order + [key], seen[key := h];
    assert Dictionary(order', seen');
    ValuesAt(order, seen);
    ValuesAt(order', seen');
  }

  ghost predicate DistinctIds(s: seq<Hit>) {
    forall i, j :: 0 <= i < j < |s| ==> Id(s[i]) != Id(s[j])
  }

  /** What Improve leaves at one position. */
  function Improved(entry: Hit, h: Hit): Hit {
    if Id(entry) == Id(h) && Score(h) > Score(entry) then h else entry
  }

  lemma {:induction false} ImproveAt(table: seq<Hit>, h: Hit)
    requires DistinctIds(table)
    ensures |Improve(table, h)| == |table|
    ensures forall i :: 0 <= i < |table| ==> Improve(table, h)[i] == Improved(table[i], h)
  {
    if table != [] {
      ImproveAt(table[1..], h);
      if Id(table[0]) == Id(h) {
        forall i | 0 < i < |table| ensures Improved(table[i], h) == table[i] {
          assert Id(table[i]) != Id(table[0]);
        }
      }
    }
  }

  lemma DictionaryUpdate(order: seq<string>, seen: map<string, Hit>, key: string, h: Hit)
    requires Dictionary(order, seen) && key in order && Id(h) == key
    ensures Dictionary(order, seen[key := h]) && DistinctIds(Values(order, seen)) && HasId(Values(order, seen), key)
  {
    ValuesAt(order, seen);
    hide Values;
    var i :| 0 <= i < |order| && order[i] == key;
    assert Id(Values(order, seen)[i]) == key;
  }

  /** Position by position, improving the table is updating the dictionary. */
  lemma ImprovedValue(order: seq<string>, seen: map<string, Hit>, key: string, h: Hit, i: nat)
    requires Dictionary(order, seen) && key in order && Id(h) == key && i < |order|
    ensures Improved(seen[order[i]], h) == (if Score(h) > Score(seen[key]) then seen[key := h] else seen)[order[i]]
  {
  }

  lemma UpdateValue(order: seq<string>, seen: map<string, Hit>, key: string, h: Hit)
    requires Dictionary(order, seen) && key in order && Id(h) == key
    ensures HasId(Values(order, seen), key)
    ensures Dictionary(order, seen[key := h])
    ensures Improve(Values(order, seen), h) ==
      if Score(h) > Score(seen[key]) then Values(order, seen[key := h]) else Values(order, seen)
  {
    hide Values, Improve, Improved, DistinctIds, HasId;
    var seen' := if Score(h) > Score(seen[key]) then seen[key := h] else seen;
    DictionaryUpdate(order, seen, key, h);
    ValuesAt(order, seen);
    ValuesAt(order, seen');
    ImproveAt(Values(order, seen), h);
    forall i | 0 <= i < |order| ensures Improve(Values(order, seen), h)[i] == Values(order, seen')[i] {
      ImprovedValue(order, seen, key, h, i);
    }
    assert Improve(Values(order, seen), h) == Values(order, seen');
  }

  lemma {:induction false} AbsorbAllAppend(table: seq<Hit>, hits: seq<Hit>, h: Hit)
    ensures AbsorbAll(table, hits + [h]) == Absorb(AbsorbAll(table, hits), h)
    decreases |hits|
  {
    if hits == [] {
      assert hits + [h] == [h];
      assert AbsorbAll(Absorb(table, h), []) == Absorb(table, h);
    } else {
      assert (hits + [h])[1..] == hits[1..] + [h];
      AbsorbAllAppend(Absorb(table, hits[0]), hits[1..], h);
    }
  }

  /** _merge_image_hits_by_id */
  method MergeImageHitsById(captionHits: seq<Hit>, vlHits: seq<Hit>) returns (merged: seq<Hit>)
    ensures merged == Merged(captionHits, vlHits)
  {
    var seen: map<string, Hit> := map[];
    var order: seq<string> := [];
    var hits := captionHits + vlHits;
    for n := 0 to |hits|
      invariant Dictionary(order, seen) && KeysListed(order, seen)
      invariant Values(order, seen) == AbsorbAll([], hits[..n])
    {
      var h := hits[n];
      assert hits[..n + 1] == hits[..n] + [h];
      AbsorbAllAppend([], hits[..n], h);
      if !Keyed(h) {
        continue;
      }
      var key := Id(h);
      if key !in seen {
        AppendValue(order, seen, key, h);
        seen := seen[key := h];
        order := order + [key];
      } else {
        UpdateValue(order, seen, key, h);
        if Score(h) > Score(seen[key]) {
          seen := seen[key := h];
        }
      }
    }
    assert hits[..|hits|] == hits;
    merged := StableSort(BetterFirst, Values(order, seen));
  }
}
