/**
 dedup_images: per trigger, a greedy sweep in time order keeps an image unless it
 lies less than five minutes after the last kept one; the kept images are then
 put in display order.  Times are microseconds since the epoch.
 */
module Dedup {
  import opened Options
  import opened Sorting

  const DATETIME_MIN: int := -62_135_596_800_000_000

  /** A datetime; none is earlier than datetime.min. */
  type Instant = t: int | t >= DATETIME_MIN witness 0

  /** IMAGE_DEDUP_WINDOW: five minutes. */
  const WINDOW: int := 300_000_000

  /** bucketStart is the parsed bucket_start, None when absent or unreadable. */
  datatype Image = Image(id: string, trigger: Option<string>, bucketStart: Option<Instant>)

  function TriggerOf(img: Image): string {
    if img.trigger.Some? then img.trigger.value else ""
  }

  /** The key of the first sort: unreadable times come first. */
  function TimeKey(img: Image): int {
    if img.bucketStart.Some? then img.bucketStart.value else DATETIME_MIN
  }

  predicate TimeLeq(a: Image, b: Image) {
    TimeKey(a) <= TimeKey(b)
  }

  function Priority(trigger: string): int {
    if trigger == "alert" then 3
    else if trigger == "anomaly" then 2
    else if trigger == "baseline" then 1
    else 0
  }

  /** epoch(): an unreadable time counts as the epoch itself. */
  function Epoch(img: Image): int {
    if img.bucketStart.Some? then img.bucketStart.value else 0
  }

  /** The key of the final sort: priority descending, then time descending. */
  predicate DisplayLeq(a: Image, b: Image) {
    var pa, pb := Priority(TriggerOf(a)), Priority(TriggerOf(b));
    pa > pb || (pa == pb && Epoch(a) >= Epoch(b))
  }

  predicate TooClose(img: Image, last: map<string, int>) {
    img.bucketStart.Some? && TriggerOf(img) in last && img.bucketStart.value - last[TriggerOf(img)] < WINDOW
  }

  function Remember(img: Image, last: map<string, int>): map<string, int> {
    if img.bucketStart.Some? then last[TriggerOf(img) := img.bucketStart.value] else last
  }

  /** The greedy sweep over time-ordered images. */
  function Sweep(ordered: seq<Image>, last: map<string, int>): seq<Image> {
    if ordered == [] then []
    else if TooClose(ordered[0], last) then Sweep(ordered[1..], last)
    else [ordered[0]] + Sweep(ordered[1..], Remember(ordered[0], last))
  }

  function Deduped(images: seq<Image>): seq<Image> {
    if |images| <= 1 then images
    else StableSort(DisplayLeq, Sweep(StableSort(TimeLeq, images), map[]))
  }

  /** The state of the sweep after a prefix: what is kept, and the last time per trigger. */
  function LastAfter(ordered: seq<Image>, last: map<string, int>): map<string, int> {
    if ordered == [] then last
    else if TooClose(ordered[0], last) then LastAfter(ordered[1..], last)
    else LastAfter(ordered[1..], Remember(ordered[0], last))
  }

  lemma {:induction false} SweepAppend(xs: seq<Image>, img: Image, last: map<string, int>)
    ensures Sweep(xs + [img], last) ==
      Sweep(xs, last) + if TooClose(img, LastAfter(xs, last)) then [] else [img]
    ensures LastAfter(xs + [img], last) ==
      if TooClose(img, LastAfter(xs, last)) then LastAfter(xs, last) else Remember(img, LastAfter(xs, last))
  {
    if xs == [] {
      assert xs + [img] == [img];
    } else {
      assert (xs + [img])[1..] == xs[1..] + [img];
      SweepAppend(xs[1..], img, if TooClose(xs[0], last) then last else Remember(xs[0], last));
    }
  }

  method DedupImages(images: seq<Image>) returns (kept: seq<Image>)
    ensures kept == Deduped(images)
  {
    if |images| <= 1 {
      return images;
    }
    var ordered := StableSort(TimeLeq, images);
    kept := [];
    var lastByTrigger: map<string, int> := map[];
    for n := 0 to |ordered|
      invariant kept == Sweep(ordered[..n], map[])
      invariant lastByTrigger == LastAfter(ordered[..n], map[])
    {
      var img := ordered[n];
      SweepAppend(ordered[..n], img, map[]);
      assert ordered[..n + 1] == ordered[..n] + [img];
      if img.bucketStart.None? {
        kept := kept + [img];
        continue;
      }
      var ts := img.bucketStart.value;
      var trg := TriggerOf(img);
      if trg in lastByTrigger && ts - lastByTrigger[trg] < WINDOW {
        continue;
      }
      kept := kept + [img];
      lastByTrigger := lastByTrigger[trg := ts];
    }
    assert ordered[..|ordered|] == ordered;
    kept := StableSort(DisplayLeq, kept);
  }
}
