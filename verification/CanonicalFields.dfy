/** What each field of a canonical record says about the fragments. */
module CanonicalFields {
  import opened Options
  import opened Folds
  import opened Sorting
  import opened Canonical

  // ---------------------------------------------------------------------
  // Sums and extremes
  // ---------------------------------------------------------------------

  function TotalDetections(fs: seq<Fragment>, n: nat): int
    requires n <= |fs|
  {
    if n == 0 then 0 else TotalDetections(fs, n - 1) + fs[n - 1].detections
  }

  /** A missing mean counts as zero. */
  function TotalMean(fs: seq<Fragment>, n: nat): real
    requires n <= |fs|
  {
    if n == 0 then 0.0 else TotalMean(fs, n - 1) + if fs[n - 1].mean.Some? then fs[n - 1].mean.value else 0.0
  }

  lemma {:induction false} TotalsAreFolds(fs: seq<Fragment>, n: nat)
    requires n <= |fs|
    ensures Fold(AddDetections, 0, fs[..n]) == TotalDetections(fs, n)
    ensures Fold(AddMean, 0.0, fs[..n]) == TotalMean(fs, n)
  {
    if n != 0 {
      TotalsAreFolds(fs, n - 1);
      StepsCommute();
      FoldSnoc(AddDetections, 0, fs[..n - 1], fs[n - 1]);
      FoldSnoc(AddMean, 0.0, fs[..n - 1], fs[n - 1]);
      assert fs[..n] == fs[..n - 1] + [fs[n - 1]];
    }
  }

  /** The largest standard deviation that any fragment gives. */
  ghost predicate LargestStd(fs: seq<Fragment>, x: Option<real>) {
    && (x.None? ==> forall f :: f in fs ==> f.stdDev.None?)
    && (x.Some? ==> exists f :: f in fs && f.stdDev == x)
    && (x.Some? ==> forall f :: f in fs && f.stdDev.Some? ==> f.stdDev.value <= x.value)
  }

  ghost predicate LargestDuty(fs: seq<Fragment>, x: real) {
    (exists f :: f in fs && f.dutyCycle == x) && forall f :: f in fs ==> f.dutyCycle <= x
  }

  /** The earliest first detection that any fragment gives. */
  ghost predicate EarliestFirst(fs: seq<Fragment>, t: Option<Instant>) {
    && (t.None? ==> forall f :: f in fs ==> f.firstAt.None?)
    && (t.Some? ==> exists f :: f in fs && f.firstAt == t)
    && (t.Some? ==> forall f :: f in fs && f.firstAt.Some? ==> t.value <= f.firstAt.value)
  }

  lemma {:induction false} StdIsLargest(fs: seq<Fragment>)
    ensures LargestStd(fs, Fold(TakeStd, None, fs))
  {
    if fs != [] {
      StdIsLargest(fs[1..]);
      assert forall f :: f in fs <==> f == fs[0] || f in fs[1..];
    }
  }

  lemma {:induction false} DutyIsLargest(fs: seq<Fragment>)
    ensures fs == [] ==> Fold(TakeDuty, None, fs).None?
    ensures fs != [] ==> Fold(TakeDuty, None, fs).Some? && LargestDuty(fs, Fold(TakeDuty, None, fs).value)
  {
    if fs != [] {
      DutyIsLargest(fs[1..]);
      assert forall f :: f in fs <==> f == fs[0] || f in fs[1..];
    }
  }

  lemma {:induction false} FirstIsEarliest(fs: seq<Fragment>)
    ensures EarliestFirst(fs, Fold(TakeFirst, None, fs))
  {
    if fs != [] {
      FirstIsEarliest(fs[1..]);
      assert forall f :: f in fs <==> f == fs[0] || f in fs[1..];
    }
  }

  // ---------------------------------------------------------------------
  // Rounding
  // ---------------------------------------------------------------------

  /** n ten-thousandths are nearest to x, with an even n in the middle. */
  predicate Nearest(x: real, n: int) {
    var rest := x * 10000.0 - n as real;
    -0.5 <= rest <= 0.5 && (rest == -0.5 || rest == 0.5 ==> n % 2 == 0)
  }

  /** y is x rounded to four places. */
  ghost predicate Rounds(x: real, y: real) {
    exists n :: Nearest(x, n) && y * 10000.0 == n as real
  }

  lemma Round4Rounds(x: real)
    ensures Rounds(x, Round4(x))
  {
    var y := x * 10000.0;
    var down := y.Floor;
    var rest := y - down as real;
    var n := if rest < 0.5 || (rest == 0.5 && down % 2 == 0) then down else down + 1;
    assert Nearest(x, n) && Round4(x) * 10000.0 == n as real;
  }

  // ---------------------------------------------------------------------
  // Components, times, completeness
  // ---------------------------------------------------------------------

  /** activity_components: the sums. */
  lemma SumFields(fs: seq<Fragment>, serial: string, camera: string)
    requires fs != []
    ensures var c := Canonicalize(fs, serial, camera).components;
      && c.total == TotalDetections(fs, |fs|)
      && c.classes == |set i | 0 <= i < |fs| :: fs[i].objectType|
      && Rounds(TotalMean(fs, |fs|) / 30.0, c.c1)
  {
    hide Fold, Rounds, Round4, HashOf, Clamp, InterruptedSeconds, ObjectCounts, PeakOf;
    assert fs[..|fs|] == fs;
    TotalsAreFolds(fs, |fs|);
    DutyIsLargest(fs);
    Round4Rounds(TotalMean(fs, |fs|) / 30.0);
    assert Types(fs) == set i | 0 <= i < |fs| :: fs[i].objectType;
  }

  /** activity_components: the extremes. */
  lemma ExtremeFields(fs: seq<Fragment>, serial: string, camera: string)
    requires fs != []
    ensures var c := Canonicalize(fs, serial, camera).components;
      && ((c.variance == 0.0 && LargestStd(fs, None)) || LargestStd(fs, Some(c.variance)))
      && (exists d :: LargestDuty(fs, d) && Rounds(d, c.c2))
      && Rounds(c.variance / 15.0, c.c3)
  {
    hide Fold, LargestStd, LargestDuty, Rounds, Round4, HashOf, Clamp, InterruptedSeconds, ObjectCounts, PeakOf;
    StdIsLargest(fs);
    DutyIsLargest(fs);
    var std := Fold(TakeStd, None, fs);
    Round4Rounds(Fold(TakeDuty, None, fs).value);
    Round4Rounds((if std.Some? then std.value else 0.0) / 15.0);
  }

  /** The first fragment with the largest count is where the peak is. */
  ghost predicate FirstPeak(fs: seq<Fragment>, n: int) {
    0 <= n < |fs| && (forall i :: 0 <= i < |fs| ==> fs[i].maxCount <= fs[n].maxCount) && forall i :: 0 <= i < n ==> fs[i].maxCount < fs[n].maxCount
  }

  lemma {:induction false} PeakIsFirst(fs: seq<Fragment>) returns (n: nat)
    requires fs != []
    ensures FirstPeak(fs, n) && PeakOf(fs) == fs[n]
  {
    if |fs| == 1 {
      n := 0;
    } else {
      n := PeakIsFirst(fs[1..]);
      if fs[1..][n].maxCount > fs[0].maxCount {
        n := n + 1;
      } else {
        n := 0;
      }
    }
  }

  /** keyframe_candidates and completeness, field by field. */
  lemma TimeFields(fs: seq<Fragment>, serial: string, camera: string)
    requires fs != []
    ensures var r := Canonicalize(fs, serial, camera);
      && r.baselineTs == fs[0].start
      && (exists n :: FirstPeak(fs, n) && r.peakTs == if fs[n].maxCountAt.Some? then fs[n].maxCountAt.value else fs[0].start)
      && ((r.changeTs == fs[0].start && EarliestFirst(fs, None)) || EarliestFirst(fs, Some(r.changeTs)))
  {
    hide Fold, EarliestFirst, FirstPeak, HashOf, ComponentsOf, Clamp, InterruptedSeconds, ObjectCounts, PeakOf;
    FirstIsEarliest(fs);
    DutyIsLargest(fs);
    var n := PeakIsFirst(fs);
  }

  /** Whole seconds of a gap, none of a gap below one second. */
  predicate WholeSeconds(gap: real, n: int) {
    if gap < 1.0 then n == 0 else n as real <= gap < n as real + 1.0
  }

  lemma WholeOfIsWhole(gap: real)
    ensures WholeSeconds(gap, WholeOf(gap))
  {
  }

  /** The largest duty cycle, cut to the unit interval, and the whole seconds it leaves out. */
  lemma CompletenessFields(fs: seq<Fragment>, serial: string, camera: string)
    requires fs != []
    ensures var r := Canonicalize(fs, serial, camera);
      && (exists d :: LargestDuty(fs, d) && r.coverage == if d < 0.0 then 0.0 else if d > 1.0 then 1.0 else d)
      && WholeSeconds(fs[0].minutes as real * 60.0 * (1.0 - r.coverage), r.interrupted)
  {
    hide Fold, LargestDuty, HashOf, ComponentsOf, ObjectCounts, PeakOf, WholeSeconds, WholeOf;
    DutyIsLargest(fs);
    var coverage := Clamp(Fold(TakeDuty, None, fs).value);
    WholeOfIsWhole(Gap(fs[0].minutes, coverage));
    assert Canonicalize(fs, serial, camera).coverage == coverage;
  }

  // ---------------------------------------------------------------------
  // Counts and hashes
  // ---------------------------------------------------------------------

  /** object_counts: every type with the trackers of its last fragment. */
  lemma {:induction false} CountFields(fs: seq<Fragment>, n: nat)
    requires n < |fs| && forall m :: n < m < |fs| ==> fs[m].objectType != fs[n].objectType
    ensures fs[n].objectType in ObjectCounts(fs) && ObjectCounts(fs)[fs[n].objectType] == fs[n].trackers
  {
    if n < |fs| - 1 {
      CountFields(fs[..|fs| - 1], n);
    }
  }

  lemma {:induction false} CountKeys(fs: seq<Fragment>)
    ensures ObjectCounts(fs).Keys == set i | 0 <= i < |fs| :: fs[i].objectType
  {
    if fs != [] {
      CountKeys(fs[..|fs| - 1]);
    }
  }

  /** At their first difference the smaller character decides; a text comes before its continuations. */
  lemma {:induction false} LexIff(a: string, b: string)
    ensures LexLeq(a, b) <==> a <= b || exists i :: 0 <= i < |a| && i < |b| && a[..i] == b[..i] && a[i] < b[i]
  {
    if a != "" && b != "" && a[0] == b[0] {
      LexIff(a[1..], b[1..]);
      assert a <= b <==> a[1..] <= b[1..];
      if i :| 0 <= i < |a| && i < |b| && a[..i] == b[..i] && a[i] < b[i] {
        assert i > 0 && a[1..][..i - 1] == a[..i][1..] && b[1..][..i - 1] == b[..i][1..];
        assert a[1..][i - 1] < b[1..][i - 1];
      }
      if i :| 0 <= i < |a[1..]| && i < |b[1..]| && a[1..][..i] == b[1..][..i] && a[1..][i] < b[1..][i] {
        assert a[..i + 1] == [a[0]] + a[1..][..i] && b[..i + 1] == [b[0]] + b[1..][..i];
        assert a[i + 1] < b[i + 1];
      }
    } else if a != "" && b != "" && a[0] < b[0] {
      assert a[..0] == b[..0];
    }
  }

  /** The hashed entries are those of the fragments, sorted by type. */
  lemma HashFields(fs: seq<Fragment>, serial: string, camera: string)
    requires fs != []
    ensures var r := Canonicalize(fs, serial, camera);
      && r.id == BucketId(serial, camera, fs[0].start, fs[0].end, r.detectionHash, 2)
      && multiset(r.detectionHash.entries) == multiset(seq(|fs|, i requires 0 <= i < |fs| => Entry(fs[i].objectType, fs[i].detections, fs[i].trackers, fs[i].start, fs[i].end)))
      && forall i, j :: 0 <= i < j < |r.detectionHash.entries| ==> LexLeq(r.detectionHash.entries[i].objectType, r.detectionHash.entries[j].objectType)
  {
    hide Fold, ComponentsOf, ObjectCounts, PeakOf, Clamp, InterruptedSeconds, LexLeq;
    DutyIsLargest(fs);
    LexIsOrder();
    SortPermutes(ByType, Entries(fs));
    SortSorted(ByType, Entries(fs));
    assert Entries(fs) == seq(|fs|, i requires 0 <= i < |fs| => Entry(fs[i].objectType, fs[i].detections, fs[i].trackers, fs[i].start, fs[i].end));
  }
}
