/**
 From the fragments of one window to one bucket record, and the ids hashed on the way.
 Fragments arrive in any order; these lemmas say what that order can change.
 */
module Canonical {
  import opened Options
  import opened Folds
  import opened Sorting
  import Json

  /** Microseconds since the epoch; isoformat() is an injective rendering of it. */
  type Instant = int

  datatype Fragment = Fragment(
    objectType: string,
    start: Instant,
    end: Instant,
    minutes: int,
    trackers: int,
    detections: int,
    maxCount: int,
    maxCountAt: Option<Instant>,
    firstAt: Option<Instant>,
    mean: Option<real>,
    stdDev: Option<real>,
    dutyCycle: real)

  // ---------------------------------------------------------------------
  // transform_to_bucket_record
  // ---------------------------------------------------------------------

  function AddDetections(f: Fragment, total: int): int { f.detections + total }

  function AddMean(f: Fragment, total: real): real {
    (if f.mean.Some? then f.mean.value else 0.0) + total
  }

  function TakeStd(f: Fragment, best: Option<real>): Option<real> {
    match f.stdDev
    case None => best
    case Some(x) => Some(if best.None? || best.value < x then x else best.value)
  }

  function TakeDuty(f: Fragment, best: Option<real>): Option<real> {
    Some(if best.None? || best.value < f.dutyCycle then f.dutyCycle else best.value)
  }

  function TakeFirst(f: Fragment, best: Option<Instant>): Option<Instant> {
    match f.firstAt
    case None => best
    case Some(t) => Some(if best.None? || t < best.value then t else best.value)
  }

  /** {f.object_type: f.unique_tracker_ids for f in fragments}: the last one wins. */
  function ObjectCounts(fs: seq<Fragment>): map<string, int> {
    if fs == [] then map[]
    else
      var last := fs[|fs| - 1];
      ObjectCounts(fs[..|fs| - 1])[last.objectType := last.trackers]
  }

  function Types(fs: seq<Fragment>): set<string> {
    set f | f in fs :: f.objectType
  }

  /** round(x, 4), a tie going to the even last digit. */
  function Round4(x: real): real {
    var y := x * 10000.0;
    var down := y.Floor;
    var rest := y - down as real;
    (if rest < 0.5 || (rest == 0.5 && down % 2 == 0) then down else down + 1) as real / 10000.0
  }

  /** max(fragments, key=max_count): the first of the largest. */
  function PeakOf(fs: seq<Fragment>): Fragment
    requires fs != []
  {
    if |fs| == 1 then fs[0]
    else
      var best := PeakOf(fs[1..]);
      if best.maxCount > fs[0].maxCount then best else fs[0]
  }

  function PeakTime(f: Fragment, start: Instant): Instant {
    if f.maxCountAt.Some? then f.maxCountAt.value else start
  }

  function Clamp(x: real): real {
    if x < 0.0 then 0.0 else if x > 1.0 then 1.0 else x
  }

  function Gap(minutes: int, coverage: real): real {
    minutes as real * 60.0 * (1.0 - coverage)
  }

  /** max(0, int(seconds)) */
  function WholeOf(seconds: real): int {
    if seconds < 0.0 then 0 else seconds.Floor
  }

  function InterruptedSeconds(minutes: int, coverage: real): int {
    WholeOf(Gap(minutes, coverage))
  }

  // ---------------------------------------------------------------------
  // _compute_detection_hash, generate_bucket_id
  // ---------------------------------------------------------------------

  datatype Entry = Entry(objectType: string, detections: int, trackers: int, start: Instant, end: Instant)

  /** SHA-256 of a canonical JSON text, taken as injective in what the text encodes. */
  datatype DetectionHash = DetectionHash(entries: seq<Entry>)

  datatype BucketId = BucketId(serial: string, camera: string, start: Instant, end: Instant,
                               detections: DetectionHash, schemaVersion: int)

  const SCHEMA_VERSION := 2

  /** str comparison: by code points, a proper prefix first. */
  predicate LexLeq(a: string, b: string) {
    a == "" || (b != "" && (a[0] < b[0] || (a[0] == b[0] && LexLeq(a[1..], b[1..]))))
  }

  predicate ByType(a: Entry, b: Entry) {
    LexLeq(a.objectType, b.objectType)
  }

  function EntryOf(f: Fragment): Entry {
    Entry(f.objectType, f.detections, f.trackers, f.start, f.end)
  }

  function Entries(fs: seq<Fragment>): seq<Entry> {
    seq(|fs|, i requires 0 <= i < |fs| => EntryOf(fs[i]))
  }

  function HashOf(fs: seq<Fragment>): DetectionHash {
    DetectionHash(StableSort(ByType, Entries(fs)))
  }

  datatype Components = Components(total: int, classes: nat, variance: real, c1: real, c2: real, c3: real)

  datatype Record = Record(
    id: BucketId,
    detectionHash: DetectionHash,
    counts: map<string, int>,
    components: Components,
    baselineTs: Instant,
    peakTs: Instant,
    changeTs: Instant,
    coverage: real,
    interrupted: int)

  function ComponentsOf(fs: seq<Fragment>): Components
    requires fs != []
  {
    var std := Fold(TakeStd, None, fs);
    var maxStd := if std.Some? then std.value else 0.0;
    var duty := Fold(TakeDuty, None, fs).value;
    Components(Fold(AddDetections, 0, fs), |Types(fs)|, maxStd,
      Round4(Fold(AddMean, 0.0, fs) / 30.0), Round4(duty), Round4(maxStd / 15.0))
  }

  function Canonicalize(fs: seq<Fragment>, serial: string, camera: string): Record
    requires fs != []
  {
    var start := fs[0].start;
    var change := Fold(TakeFirst, None, fs);
    var coverage := Clamp(Fold(TakeDuty, None, fs).value);
    Record(
      BucketId(serial, camera, start, fs[0].end, HashOf(fs), SCHEMA_VERSION),
      HashOf(fs),
      ObjectCounts(fs),
      ComponentsOf(fs),
      start,
      PeakTime(PeakOf(fs), start),
      if change.Some? then change.value else start,
      coverage,
      InterruptedSeconds(fs[0].minutes, coverage))
  }

  /** compute_child_set_hash. */
  function ChildSetHash(ids: seq<string>): Json.Digest {
    Json.Sha256(Json.ListText(StableSort(LexLeq, ids)))
  }

  // ---------------------------------------------------------------------
  // Order
  // ---------------------------------------------------------------------

  lemma {:induction false} LexTotal(a: string, b: string)
    ensures LexLeq(a, b) || LexLeq(b, a)
    ensures LexLeq(a, b) && LexLeq(b, a) ==> a == b
  {
    if a != "" && b != "" {
      LexTotal(a[1..], b[1..]);
      assert a == [a[0]] + a[1..] && b == [b[0]] + b[1..];
    }
  }

  lemma {:induction false} LexTransitive(a: string, b: string, c: string)
    requires LexLeq(a, b) && LexLeq(b, c)
    ensures LexLeq(a, c)
  {
    if a != "" && a[0] == b[0] && b[0] == c[0] {
      LexTransitive(a[1..], b[1..], c[1..]);
    }
  }

  lemma LexIsOrder()
    ensures TotalPreorder(LexLeq) && TotalPreorder(ByType)
  {
    forall a, b ensures LexLeq(a, b) || LexLeq(b, a) {
      LexTotal(a, b);
    }
    forall a, b, c | LexLeq(a, b) && LexLeq(b, c) ensures LexLeq(a, c) {
      LexTransitive(a, b, c);
    }
    forall a, b ensures ByType(a, b) || ByType(b, a) {
      LexTotal(a.objectType, b.objectType);
    }
    forall a, b, c | ByType(a, b) && ByType(b, c) ensures ByType(a, c) {
      LexTransitive(a.objectType, b.objectType, c.objectType);
    }
  }

  /**
   The hash of a set of child summaries forgets the order they came in and nothing
   else: equal hashes, equal multisets.
   */
  lemma ChildSetHashIff(a: seq<string>, b: seq<string>)
    ensures ChildSetHash(a) == ChildSetHash(b) <==> multiset(a) == multiset(b)
  {
    LexIsOrder();
    forall x, y | x in a && y in a && LexLeq(x, y) && LexLeq(y, x) ensures x == y {
      LexTotal(x, y);
    }
    if multiset(a) == multiset(b) {
      SortForgetsOrder(LexLeq, a, b);
    }
    if ChildSetHash(a) == ChildSetHash(b) {
      Json.ListTextInjective(StableSort(LexLeq, a), StableSort(LexLeq, b));
      SortPermutes(LexLeq, a);
      SortPermutes(LexLeq, b);
    }
  }

  ghost predicate DistinctTypes(fs: seq<Fragment>) {
    forall i, j :: 0 <= i < j < |fs| ==> fs[i].objectType != fs[j].objectType
  }

  ghost predicate SameWindow(fs: seq<Fragment>) {
    forall f, g :: f in fs && g in fs ==> f.start == g.start && f.end == g.end && f.minutes == g.minutes
  }

  lemma SameElements(a: seq<Fragment>, b: seq<Fragment>)
    requires multiset(a) == multiset(b)
    ensures forall f :: f in a <==> f in b
    ensures |a| == |b|
  {
    assert forall f :: f in a <==> f in multiset(a);
    assert forall f :: f in b <==> f in multiset(b);
    assert |multiset(a)| == |a| && |multiset(b)| == |b|;
  }

  lemma DistinctTypesKept(a: seq<Fragment>, b: seq<Fragment>)
    requires multiset(a) == multiset(b) && DistinctTypes(a)
    ensures DistinctTypes(b)
  {
    SameElements(a, b);
    forall i, j | 0 <= i < j < |b| ensures b[i].objectType != b[j].objectType {
      assert b == b[..i] + [b[i]] + b[i + 1..j] + [b[j]] + b[j + 1..];
      if b[i] == b[j] {
        assert multiset(b)[b[i]] >= 2;
        TwiceInside(a, b[i]);
      } else {
        assert b[i] in a && b[j] in a;
      }
    }
  }

  lemma TwiceInside<T>(s: seq<T>, x: T)
    requires multiset(s)[x] >= 2
    ensures exists i, j :: 0 <= i < j < |s| && s[i] == x && s[j] == x
  {
    assert x in multiset(s);
    var i :| 0 <= i < |s| && s[i] == x;
    assert s == s[..i] + [s[i]] + s[i + 1..];
    if x in s[i + 1..] {
      var j :| 0 <= j < |s[i + 1..]| && s[i + 1..][j] == x;
      assert s[i + 1 + j] == x;
    } else {
      assert x in multiset(s[..i]);
      var j :| 0 <= j < |s[..i]| && s[..i][j] == x;
      assert s[j] == x;
    }
  }

  lemma {:induction false} ObjectCountsMeaning(fs: seq<Fragment>)
    requires DistinctTypes(fs)
    ensures ObjectCounts(fs).Keys == Types(fs)
    ensures forall f :: f in fs ==> ObjectCounts(fs)[f.objectType] == f.trackers
  {
    if fs != [] {
      var init, last := fs[..|fs| - 1], fs[|fs| - 1];
      ObjectCountsMeaning(init);
      assert fs == init + [last];
    }
  }

  lemma {:induction false} EntriesOf(fs: seq<Fragment>)
    ensures forall e :: e in Entries(fs) <==> exists f :: f in fs && EntryOf(f) == e
  {
    forall f | f in fs ensures EntryOf(f) in Entries(fs) {
      var i :| 0 <= i < |fs| && fs[i] == f;
      assert Entries(fs)[i] == EntryOf(f);
    }
    forall e | e in Entries(fs) ensures exists f :: f in fs && EntryOf(f) == e {
      var i :| 0 <= i < |Entries(fs)| && Entries(fs)[i] == e;
      assert fs[i] in fs;
    }
  }

  lemma EntriesAntisymmetric(fs: seq<Fragment>)
    requires DistinctTypes(fs)
    ensures Antisymmetric(ByType, Entries(fs))
  {
    forall x, y | x in Entries(fs) && y in Entries(fs) && ByType(x, y) && ByType(y, x) ensures x == y {
      LexTotal(x.objectType, y.objectType);
      var i :| 0 <= i < |fs| && Entries(fs)[i] == x;
      var j :| 0 <= j < |fs| && Entries(fs)[j] == y;
      assert fs[i].objectType == fs[j].objectType;
    }
  }

  /** A list without repetitions is determined, as a multiset, by its elements. */
  lemma NoRepeats<T>(s: seq<T>, t: seq<T>)
    requires forall i, j :: 0 <= i < j < |s| ==> s[i] != s[j]
    requires forall i, j :: 0 <= i < j < |t| ==> t[i] != t[j]
    requires forall x :: x in s <==> x in t
    ensures multiset(s) == multiset(t)
  {
    forall x ensures multiset(s)[x] == multiset(t)[x] {
      if multiset(s)[x] >= 2 {
        TwiceInside(s, x);
      }
      if multiset(t)[x] >= 2 {
        TwiceInside(t, x);
      }
      assert x in multiset(s) <==> x in s;
      assert x in multiset(t) <==> x in t;
    }
  }

  /**
   For distinct object types the detection hash forgets the order of the fragments,
   and is equal only when they agree on every field it covers.
   */
  lemma DetectionHashIff(a: seq<Fragment>, b: seq<Fragment>)
    requires DistinctTypes(a) && DistinctTypes(b)
    ensures HashOf(a) == HashOf(b) <==> forall e :: e in Entries(a) <==> e in Entries(b)
  {
    LexIsOrder();
    if forall e :: e in Entries(a) <==> e in Entries(b) {
      NoRepeats(Entries(a), Entries(b));
      EntriesAntisymmetric(a);
      SortForgetsOrder(ByType, Entries(a), Entries(b));
    }
    if HashOf(a) == HashOf(b) {
      SortPermutes(ByType, Entries(a));
      SortPermutes(ByType, Entries(b));
      assert forall e :: e in Entries(a) <==> e in multiset(Entries(a));
      assert forall e :: e in Entries(b) <==> e in multiset(Entries(b));
    }
  }

  lemma StepsCommute()
    ensures Swaps(AddDetections) && Swaps(AddMean)
    ensures Swaps(TakeStd) && Swaps(TakeDuty) && Swaps(TakeFirst)
  {
  }

  lemma ComponentsForgetOrder(a: seq<Fragment>, b: seq<Fragment>)
    requires a != [] && multiset(a) == multiset(b)
    ensures b != [] && ComponentsOf(a) == ComponentsOf(b)
    ensures Fold(TakeDuty, None, a) == Fold(TakeDuty, None, b)
    ensures Fold(TakeFirst, None, a) == Fold(TakeFirst, None, b)
  {
    hide Round4, Fold, Swaps;
    SameElements(a, b);
    StepsCommute();
    FoldForgetsOrder(AddDetections, 0, a, b);
    FoldForgetsOrder(AddMean, 0.0, a, b);
    FoldForgetsOrder(TakeStd, None, a, b);
    FoldForgetsOrder(TakeDuty, None, a, b);
    FoldForgetsOrder(TakeFirst, None, a, b);
    assert Types(a) == Types(b);
  }

  /**
   Every order of the fragments gives the same record, the peak time aside: same
   bucket id, detection hash, counts, components, change time and completeness.
   */
  lemma RecordForgetsOrder(a: seq<Fragment>, b: seq<Fragment>, serial: string, camera: string)
    requires a != [] && multiset(a) == multiset(b) && DistinctTypes(a) && SameWindow(a)
    ensures b != []
    ensures Canonicalize(b, serial, camera) ==
            Canonicalize(a, serial, camera).(peakTs := Canonicalize(b, serial, camera).peakTs)
  {
    hide Fold, HashOf, Clamp, InterruptedSeconds;
    SameElements(a, b);
    DistinctTypesKept(a, b);
    ComponentsForgetOrder(a, b);
    ObjectCountsMeaning(a);
    ObjectCountsMeaning(b);
    assert Types(a) == Types(b);
    assert ObjectCounts(a) == ObjectCounts(b);
    EntriesOf(a);
    EntriesOf(b);
    DetectionHashIff(a, b);
    assert a[0] in a && b[0] in a;
  }

  // ---------------------------------------------------------------------
  // The peak
  // ---------------------------------------------------------------------

  predicate IsPeak(f: Fragment, fs: seq<Fragment>) {
    f in fs && forall g :: g in fs ==> g.maxCount <= f.maxCount
  }

  lemma {:induction false} PeakOfIsPeak(fs: seq<Fragment>)
    requires fs != []
    ensures IsPeak(PeakOf(fs), fs)
    ensures IsPeak(fs[0], fs) ==> PeakOf(fs) == fs[0]
  {
    if |fs| > 1 {
      PeakOfIsPeak(fs[1..]);
      assert fs == [fs[0]] + fs[1..];
    }
  }

  /** The same peak time whatever the order. */
  ghost predicate PeakSettled(fs: seq<Fragment>, start: Instant)
    requires fs != []
  {
    forall p: seq<Fragment> :: p != [] && multiset(p) == multiset(fs) ==> PeakTime(PeakOf(p), start) == PeakTime(PeakOf(fs), start)
  }

  /** The peak time depends on the order exactly when fragments tie for the peak at different times. */
  lemma PeakTimeForgetsOrderIff(fs: seq<Fragment>, start: Instant)
    requires fs != []
    ensures PeakSettled(fs, start) <==> TiesAgree(fs, start)
  {
    if TiesAgree(fs, start) {
      forall p: seq<Fragment> | p != [] && multiset(p) == multiset(fs)
        ensures PeakTime(PeakOf(p), start) == PeakTime(PeakOf(fs), start)
      {
        PeakMoves(fs, p);
      }
    }
    if PeakSettled(fs, start) {
      forall f | IsPeak(f, fs) ensures PeakTime(f, start) == PeakTime(PeakOf(fs), start) {
        var p := PeakFirst(fs, f);
      }
    }
  }

  ghost predicate TiesAgree(fs: seq<Fragment>, start: Instant) {
    forall f, g :: IsPeak(f, fs) && IsPeak(g, fs) ==> PeakTime(f, start) == PeakTime(g, start)
  }

  lemma PeakMoves(fs: seq<Fragment>, p: seq<Fragment>)
    requires fs != [] && p != [] && multiset(p) == multiset(fs)
    ensures IsPeak(PeakOf(p), fs) && IsPeak(PeakOf(fs), fs)
  {
    SameElements(p, fs);
    PeakOfIsPeak(p);
    PeakOfIsPeak(fs);
  }

  /** An order in which f is taken for the peak. */
  lemma PeakFirst(fs: seq<Fragment>, f: Fragment) returns (p: seq<Fragment>)
    requires IsPeak(f, fs)
    ensures p != [] && multiset(p) == multiset(fs) && PeakOf(p) == f
  {
    var i :| 0 <= i < |fs| && fs[i] == f;
    WithoutOne(fs, i);
    p := [f] + Without(fs, i);
    SameElements(p, fs);
    PeakOfIsPeak(p);
  }
}
