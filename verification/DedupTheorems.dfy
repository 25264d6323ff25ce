/** dedup_images keeps as much as it may, and applying it twice changes nothing. */
module DedupTheorems {
  import opened Options
  import opened Sorting
  import opened Dedup

  lemma TimeLeqIsOrder()
    ensures TotalPreorder(TimeLeq)
  {
  }

  lemma DisplayLeqIsOrder()
    ensures TotalPreorder(DisplayLeq)
  {
  }

  // ---------------------------------------------------------------------
  // The sweep
  // ---------------------------------------------------------------------

  /** a and b carry the same trigger and both have a time. */
  predicate Comparable(a: Image, b: Image) {
    a.bucketStart.Some? && b.bucketStart.Some? && TriggerOf(a) == TriggerOf(b)
  }

  /** k was kept, and img lies less than the window after it (k may be img). */
  predicate Covers(k: Image, img: Image) {
    Comparable(k, img) && 0 <= img.bucketStart.value - k.bucketStart.value < 300_000_000
  }

  /** Kept images of one trigger are at least a window apart, in list order. */
  ghost predicate Spaced(s: seq<Image>) {
    forall i, j :: 0 <= i < j < |s| && Comparable(s[i], s[j]) ==>
      s[j].bucketStart.value - s[i].bucketStart.value >= WINDOW
  }

  /** Every remembered time is no later than any image still to come. */
  ghost predicate Past(last: map<string, int>, ordered: seq<Image>) {
    forall i, t :: 0 <= i < |ordered| && t in last && ordered[i].bucketStart.Some? ==>
      last[t] <= ordered[i].bucketStart.value
  }

  lemma PastNext(last: map<string, int>, ordered: seq<Image>)
    requires ordered != [] && Sorted(TimeLeq, ordered) && Past(last, ordered)
    ensures Past(last, ordered[1..]) && Past(Remember(ordered[0], last), ordered[1..])
  {
  }

  lemma {:induction false} SweepSpaced(ordered: seq<Image>, last: map<string, int>)
    requires Sorted(TimeLeq, ordered) && Past(last, ordered)
    ensures Spaced(Sweep(ordered, last))
    ensures forall k :: k in Sweep(ordered, last) && k.bucketStart.Some? && TriggerOf(k) in last ==>
      k.bucketStart.value - last[TriggerOf(k)] >= WINDOW
  {
    if ordered != [] {
      PastNext(last, ordered);
      var head := ordered[0];
      if TooClose(head, last) {
        SweepSpaced(ordered[1..], last);
      } else {
        var last' := Remember(head, last);
        var rest := Sweep(ordered[1..], last');
        SweepSpaced(ordered[1..], last');
        forall j | 0 <= j < |rest| && Comparable(head, rest[j])
          ensures rest[j].bucketStart.value - head.bucketStart.value >= WINDOW
        {
          assert rest[j] in rest;
        }
        forall k | k in [head] + rest && k.bucketStart.Some? && TriggerOf(k) in last
          ensures k.bucketStart.value - last[TriggerOf(k)] >= WINDOW
        {
          if k != head && TriggerOf(k) == TriggerOf(head) && head.bucketStart.Some? {
            assert last[TriggerOf(k)] <= ordered[0].bucketStart.value;
          }
        }
      }
    }
  }

  lemma {:induction false} SweepCovers(ordered: seq<Image>, last: map<string, int>, img: Image)
    requires Sorted(TimeLeq, ordered) && Past(last, ordered)
    requires img in ordered && img.bucketStart.Some?
    ensures (exists k :: k in Sweep(ordered, last) && Covers(k, img)) ||
            (TriggerOf(img) in last && 0 <= img.bucketStart.value - last[TriggerOf(img)] < WINDOW)
  {
    PastNext(last, ordered);
    var head := ordered[0];
    if TooClose(head, last) {
      if img != head {
        SweepCovers(ordered[1..], last, img);
      }
    } else if img == head {
      assert Covers(head, img) && head in Sweep(ordered, last);
    } else {
      var last' := Remember(head, last);
      SweepCovers(ordered[1..], last', img);
      if k :| k in Sweep(ordered[1..], last') && Covers(k, img) {
        assert k in Sweep(ordered, last);
      } else if head.bucketStart.Some? && TriggerOf(head) == TriggerOf(img) {
        assert Covers(head, img) && head in Sweep(ordered, last);
      }
    }
  }

  lemma {:induction false} SweepSubset(ordered: seq<Image>, last: map<string, int>)
    ensures multiset(Sweep(ordered, last)) <= multiset(ordered)
    ensures forall k: Image :: k.bucketStart.None? ==> multiset(Sweep(ordered, last))[k] == multiset(ordered)[k]
  {
    if ordered != [] {
      assert ordered == [ordered[0]] + ordered[1..];
      SweepSubset(ordered[1..], if TooClose(ordered[0], last) then last else Remember(ordered[0], last));
    }
  }

  /** The sweep keeps the order of its input. */
  lemma {:induction false} SweepSorted(ordered: seq<Image>, last: map<string, int>)
    requires Sorted(TimeLeq, ordered)
    ensures Sorted(TimeLeq, Sweep(ordered, last))
  {
    if ordered != [] {
      var last' := if TooClose(ordered[0], last) then last else Remember(ordered[0], last);
      SweepSorted(ordered[1..], last');
      var rest := Sweep(ordered[1..], last');
      SweepSubset(ordered[1..], last');
      forall j | 0 <= j < |rest| ensures TimeLeq(ordered[0], rest[j]) {
        assert rest[j] in multiset(rest);
        assert rest[j] in ordered[1..];
      }
    }
  }

  /** Images that are already spaced all survive. */
  lemma {:induction false} SweepOfSpaced(ordered: seq<Image>, last: map<string, int>)
    requires Spaced(ordered)
    requires forall k :: k in ordered && k.bucketStart.Some? && TriggerOf(k) in last ==>
      k.bucketStart.value - last[TriggerOf(k)] >= WINDOW
    ensures Sweep(ordered, last) == ordered
  {
    if ordered != [] {
      var head := ordered[0];
      assert head in ordered;
      var last' := Remember(head, last);
      forall k | k in ordered[1..] && k.bucketStart.Some? && TriggerOf(k) in last'
        ensures k.bucketStart.value - last'[TriggerOf(k)] >= WINDOW
      {
        var j :| 0 <= j < |ordered[1..]| && ordered[1..][j] == k;
        assert ordered[j + 1] == k;
        assert Comparable(head, k) ==> ordered[j + 1].bucketStart.value - ordered[0].bucketStart.value >= WINDOW;
      }
      SweepOfSpaced(ordered[1..], last');
      assert ordered == [head] + ordered[1..];
    }
  }

  // ---------------------------------------------------------------------
  // Facts about the kept images, whatever their order
  // ---------------------------------------------------------------------

  /** Two different kept images of one trigger are a window apart, and none is kept twice. */
  ghost predicate Separated(m: multiset<Image>) {
    && (forall a :: a in m && a.bucketStart.Some? ==> m[a] == 1)
    && (forall a, b :: a in m && b in m && a != b && Comparable(a, b) ==>
          a.bucketStart.value - b.bucketStart.value >= 300_000_000 || b.bucketStart.value - a.bucketStart.value >= 300_000_000)
  }

  lemma SplitAt(s: seq<Image>, i: nat)
    requires i < |s|
    ensures multiset(s) == multiset(s[..i]) + multiset{s[i]} + multiset(s[i + 1..])
  {
    assert s == s[..i] + [s[i]] + s[i + 1..];
  }

  lemma SpacedIsSeparated(s: seq<Image>)
    requires Spaced(s)
    ensures Separated(multiset(s))
  {
    forall a | a in multiset(s) && a.bucketStart.Some? ensures multiset(s)[a] == 1 {
      var i :| 0 <= i < |s| && s[i] == a;
      SplitAt(s, i);
      assert a !in s[..i] && a !in s[i + 1..];
    }
    forall a, b | a in multiset(s) && b in multiset(s) && a != b && Comparable(a, b)
      ensures a.bucketStart.value - b.bucketStart.value >= WINDOW || b.bucketStart.value - a.bucketStart.value >= WINDOW
    {
      var i :| 0 <= i < |s| && s[i] == a;
      var j :| 0 <= j < |s| && s[j] == b;
      assert i < j || j < i;
    }
  }

  lemma SeparatedIsSpaced(s: seq<Image>)
    requires Separated(multiset(s)) && Sorted(TimeLeq, s)
    ensures Spaced(s)
  {
    forall i, j | 0 <= i < j < |s| && Comparable(s[i], s[j])
      ensures s[j].bucketStart.value - s[i].bucketStart.value >= WINDOW
    {
      assert TimeLeq(s[i], s[j]);
      SplitAt(s, i);
      assert s[j] in s[i + 1..] by { assert s[i + 1..][j - i - 1] == s[j]; }
      assert s[j] in multiset(s[i + 1..]);
      assert s[i] in multiset(s) && s[j] in multiset(s);
    }
  }

  /** The intermediate, time-ordered list of kept images. */
  function Kept(images: seq<Image>): seq<Image> {
    Sweep(StableSort(TimeLeq, images), map[])
  }

  lemma KeptFacts(images: seq<Image>)
    ensures Spaced(Kept(images)) && Sorted(TimeLeq, Kept(images))
    ensures multiset(Kept(images)) <= multiset(images)
    ensures forall k: Image :: k.bucketStart.None? ==> multiset(Kept(images))[k] == multiset(images)[k]
    ensures forall img :: img in images && img.bucketStart.Some? ==>
      exists k :: k in Kept(images) && Covers(k, img)
  {
    TimeLeqIsOrder();
    var ordered := StableSort(TimeLeq, images);
    SortSorted(TimeLeq, images);
    SortPermutes(TimeLeq, images);
    SweepSpaced(ordered, map[]);
    SweepSorted(ordered, map[]);
    SweepSubset(ordered, map[]);
    forall img | img in images && img.bucketStart.Some? ensures exists k :: k in Kept(images) && Covers(k, img) {
      assert img in multiset(images);
      assert img in ordered;
      SweepCovers(ordered, map[], img);
    }
  }

  lemma DedupedIsKept(images: seq<Image>)
    ensures multiset(Deduped(images)) == multiset(Kept(images))
    ensures Deduped(images) == StableSort(DisplayLeq, Kept(images))
  {
    SortPermutes(DisplayLeq, Kept(images));
    if |images| == 1 {
      assert StableSort(TimeLeq, images) == images by { assert images[1..] == []; assert images == [images[0]]; }
      assert !TooClose(images[0], map[]);
      assert Sweep(images[1..], Remember(images[0], map[])) == [] by { assert images[1..] == []; }
      assert Kept(images) == images by { assert images == [images[0]]; }
    }
  }

  // ---------------------------------------------------------------------
  // What the caller gets
  // ---------------------------------------------------------------------

  /**
   The result is a selection of the input: images without a readable time all
   stay, the kept ones of a trigger are pairwise at least five minutes apart, and
   every image lies less than five minutes after a kept one of its trigger.
   */
  lemma DedupSelects(images: seq<Image>)
    ensures var kept := Deduped(images);
      && multiset(kept) <= multiset(images)
      && (forall k: Image :: k.bucketStart.None? ==> multiset(kept)[k] == multiset(images)[k])
      && Separated(multiset(kept))
      && (forall img :: img in images && img.bucketStart.Some? ==> exists k :: k in kept && Covers(k, img))
      && Sorted(DisplayLeq, kept)
  {
    KeptFacts(images);
    DedupedIsKept(images);
    SpacedIsSeparated(Kept(images));
    DisplayLeqIsOrder();
    SortSorted(DisplayLeq, Kept(images));
    forall img | img in images && img.bucketStart.Some? ensures exists k :: k in Deduped(images) && Covers(k, img) {
      var k :| k in Kept(images) && Covers(k, img);
      assert k in multiset(Kept(images));
      assert k in Deduped(images);
    }
  }

  /** How the display ranks triggers. */
  function Rank(trigger: Option<string>): int {
    if trigger == Some("alert") then 0 else if trigger == Some("anomaly") then 1 else if trigger == Some("baseline") then 2 else 3
  }

  /** The result shows alerts, then anomalies, then baselines, then the rest, each newest first; no time counts as 1970. */
  lemma DedupShows(images: seq<Image>, i: nat, j: nat)
    requires i < j < |Deduped(images)|
    ensures var a, b := Deduped(images)[i], Deduped(images)[j];
      Rank(a.trigger) < Rank(b.trigger) || (Rank(a.trigger) == Rank(b.trigger) &&
        (if a.bucketStart.Some? then a.bucketStart.value else 0) >= (if b.bucketStart.Some? then b.bucketStart.value else 0))
  {
    hide Deduped;
    DedupSelects(images);
    assert DisplayLeq(Deduped(images)[i], Deduped(images)[j]);
  }

  /** Comparable images of one and the same time. */
  predicate SameSpot(a: Image, b: Image) {
    Comparable(a, b) && a.bucketStart == b.bucketStart
  }

  lemma {:induction false} SweepKeepsFirst(ordered: seq<Image>, last: map<string, int>, k: Image, img: Image)
    requires Sorted(TimeLeq, ordered) && Past(last, ordered)
    requires k in Sweep(ordered, last) && SameSpot(k, img) && k != img
    ensures SeenFirst(ordered, k, img)
  {
    hide SeenFirst;
    PastNext(last, ordered);
    var head, rest := ordered[0], ordered[1..];
    assert ordered == [head] + rest;
    SeenFirstCons(head, rest, k, img);
    SweepSpaced(ordered, last);
    if TooClose(head, last) {
      SweepKeepsFirst(rest, last, k, img);
    } else if head != k {
      SweepSpaced(rest, Remember(head, last));
      SweepKeepsFirst(rest, Remember(head, last), k, img);
    }
  }

  /** Of several images of one trigger and one time, the one that came first in the input is kept. */
  lemma DedupKeepsFirst(images: seq<Image>, k: Image, img: Image)
    requires k in Deduped(images) && SameSpot(k, img) && k != img
    ensures SeenFirst(images, k, img)
  {
    hide SeenFirst;
    TimeLeqIsOrder();
    DedupedIsKept(images);
    SortSorted(TimeLeq, images);
    assert k in multiset(Deduped(images)) && k in multiset(Kept(images));
    SweepKeepsFirst(StableSort(TimeLeq, images), map[], k, img);
    SortKeepsFirst(TimeLeq, images, k, img);
  }

  /** The timestamped images of one trigger. */
  function OfTrigger(t: string, s: seq<Image>): seq<Image> {
    if s == [] then []
    else if s[0].bucketStart.Some? && TriggerOf(s[0]) == t then [s[0]] + OfTrigger(t, s[1..])
    else OfTrigger(t, s[1..])
  }

  lemma {:induction false} OfTriggerElements(t: string, s: seq<Image>)
    ensures forall x :: x in OfTrigger(t, s) <==> x in s && x.bucketStart.Some? && TriggerOf(x) == t
  {
    if s != [] {
      OfTriggerElements(t, s[1..]);
    }
  }

  /** Any five-minute-separated choice among the timestamped images of trigger t. */
  ghost predicate SeparatedChoice(t: string, images: seq<Image>, choice: seq<Image>) {
    && (forall c :: c in choice ==> c in images && c.bucketStart.Some? && TriggerOf(c) == t)
    && (forall i, j :: 0 <= i < j < |choice| && choice[i].bucketStart.Some? && choice[j].bucketStart.Some? ==>
          choice[i].bucketStart.value - choice[j].bucketStart.value >= 300_000_000 ||
          choice[j].bucketStart.value - choice[i].bucketStart.value >= 300_000_000)
  }

  ghost predicate Covered(kept: seq<Image>, img: Image) {
    exists k :: k in kept && Covers(k, img)
  }

  /** The first position of kept whose image covers img. */
  ghost function CoverIndex(kept: seq<Image>, img: Image): (i: nat)
    requires Covered(kept, img)
    ensures i < |kept| && Covers(kept[i], img)
  {
    if Covers(kept[0], img) then 0
    else
      assert forall k :: k in kept && k != kept[0] ==> k in kept[1..];
      1 + CoverIndex(kept[1..], img)
  }

  /** One kept image cannot cover two members of a separated choice. */
  lemma CoversOne(t: string, images: seq<Image>, choice: seq<Image>, k: Image, i: nat, j: nat)
    requires SeparatedChoice(t, images, choice) && i < j < |choice|
    ensures !(Covers(k, choice[i]) && Covers(k, choice[j]))
  {
  }

  /** Positions in kept that cover the members of a separated choice: no two are the same. */
  lemma CoverIndices(t: string, images: seq<Image>, kept: seq<Image>, choice: seq<Image>) returns (at: seq<nat>)
    requires SeparatedChoice(t, images, choice)
    requires forall i :: 0 <= i < |choice| ==> Covered(kept, choice[i])
    ensures |at| == |choice|
    ensures forall i :: 0 <= i < |at| ==> at[i] < |kept|
    ensures forall i, j :: 0 <= i < j < |at| ==> at[i] != at[j]
  {
    at := seq(|choice|, i requires 0 <= i < |choice| && Covered(kept, choice[i]) => CoverIndex(kept, choice[i]));
    forall i, j | 0 <= i < j < |at| ensures at[i] != at[j] {
      CoversOne(t, images, choice, kept[at[i]], i, j);
    }
  }

  /** Distinct numbers below n: at most n of them. */
  lemma {:induction false} DistinctBelow(at: seq<nat>, n: nat)
    requires forall i :: 0 <= i < |at| ==> at[i] < n
    requires forall i, j :: 0 <= i < j < |at| ==> at[i] != at[j]
    ensures |at| <= n
  {
    var s := set i | 0 <= i < |at| :: at[i];
    DistinctSize(at, s);
    BoundedSet(s, n);
  }

  lemma {:induction false} DistinctSize(at: seq<nat>, s: set<nat>)
    requires forall i, j :: 0 <= i < j < |at| ==> at[i] != at[j]
    requires forall x :: x in s <==> x in at
    ensures |s| == |at|
  {
    if at == [] {
      assert s == {};
    } else {
      DistinctSize(at[1..], s - {at[0]});
    }
  }

  lemma {:induction false} BoundedSet(s: set<nat>, n: nat)
    requires forall x :: x in s ==> x < n
    ensures |s| <= n
  {
    if n == 0 {
      assert s == {};
    } else {
      BoundedSet(s - {n - 1}, n - 1);
    }
  }

  /**
   No choice of pairwise five-minute-separated images of a trigger is larger than
   the one dedup_images makes.
   */
  lemma DedupIsOptimal(t: string, images: seq<Image>, choice: seq<Image>)
    requires SeparatedChoice(t, images, choice)
    ensures |choice| <= |OfTrigger(t, Deduped(images))|
  {
    var kept := OfTrigger(t, Deduped(images));
    DedupSelects(images);
    OfTriggerElements(t, Deduped(images));
    forall i | 0 <= i < |choice| ensures Covered(kept, choice[i]) {
      assert choice[i] in choice;
      var k :| k in Deduped(images) && Covers(k, choice[i]);
      assert k in kept;
    }
    var at := CoverIndices(t, images, kept, choice);
    DistinctBelow(at, |kept|);
  }

  // ---------------------------------------------------------------------
  // Idempotence
  // ---------------------------------------------------------------------

  /** A display class of a time-ordered list is time-ordered. */
  lemma {:induction false} ClassSorted(z: Image, s: seq<Image>)
    requires Sorted(TimeLeq, s)
    ensures Sorted(TimeLeq, ClassOf(DisplayLeq, z, s))
  {
    if s != [] {
      ClassSorted(z, s[1..]);
      ClassElements(DisplayLeq, z, s[1..]);
      var c := ClassOf(DisplayLeq, z, s[1..]);
      forall j | 0 <= j < |c| ensures TimeLeq(s[0], c[j]) {
        assert c[j] in c;
        var i :| 0 <= i < |s[1..]| && s[1..][i] == c[j];
        assert s[i + 1] == c[j];
      }
    }
  }

  /**
   Sorting the result by time again moves nothing inside a display class: images
   that tie there have the same time, or differ in having none at all.
   */
  lemma TimeSortKeepsClasses(z: Image, images: seq<Image>)
    ensures var y := Deduped(images);
      ClassOf(DisplayLeq, z, StableSort(TimeLeq, y)) == ClassOf(DisplayLeq, z, y)
  {
    var y := Deduped(images);
    var k := Kept(images);
    KeptFacts(images);
    DedupedIsKept(images);
    TimeLeqIsOrder();
    DisplayLeqIsOrder();
    SortStable(DisplayLeq, z, k);
    ClassSorted(z, k);
    SortClass(TimeLeq, DisplayLeq, z, y);
    SortOfSorted(TimeLeq, ClassOf(DisplayLeq, z, y));
  }

  /** dedup_images applied to its own result returns it unchanged, ties included. */
  lemma DedupIsIdempotent(images: seq<Image>)
    ensures Deduped(Deduped(images)) == Deduped(images)
  {
    var y := Deduped(images);
    var z := StableSort(TimeLeq, y);
    TimeLeqIsOrder();
    DisplayLeqIsOrder();
    DedupSelects(images);
    SortSorted(TimeLeq, y);
    SortPermutes(TimeLeq, y);
    SeparatedIsSpaced(z);
    SweepOfSpaced(z, map[]);
    assert Kept(y) == z;
    DedupedIsKept(y);
    SortPermutes(DisplayLeq, z);
    SortSorted(DisplayLeq, z);
    forall w ensures ClassOf(DisplayLeq, w, StableSort(DisplayLeq, z)) == ClassOf(DisplayLeq, w, y) {
      SortStable(DisplayLeq, w, z);
      TimeSortKeepsClasses(w, images);
    }
    SortedUnique(DisplayLeq, StableSort(DisplayLeq, z), y);
  }
}
