/**
 Events from images and bucket markers, produced live by the worker and again by the
 backfill script.  The id of an event hashes its source alone, so doubles collapse.
 */
module Events {
  import opened Options
  import opened Json

  /** What an event stands for. */
  datatype Source =
    | FromImage(imageId: string)
    | FromMarker(bucketId: string, key: string, ts: string)

  datatype Event = Event(serial: string, camera: string, eventType: string, source: Source)

  datatype ImageRow = ImageRow(imageId: string, serial: string, camera: string, trigger: string)

  /** A stored marker; either field can be missing. */
  datatype Marker = Marker(key: Option<string>, ts: Option<string>)

  datatype BucketRow = BucketRow(bucketId: string, serial: string, camera: string, markers: seq<Marker>)

  /** Camera aliases, as the resolver's cache stands at one moment. */
  type Aliases = map<(string, string), string>

  type Table = map<Digest, Event>

  function Canonical(aliases: Aliases, serial: string, camera: string): string {
    if (serial, camera) in aliases then aliases[(serial, camera)] else camera
  }

  // ---------------------------------------------------------------------
  // generate_event_id
  // ---------------------------------------------------------------------

  function ImageText(imageId: string): string {
    "{\"event_source\":\"image_trigger\",\"image_id\":" + Quoted(imageId) + "}"
  }

  function MarkerText(bucketId: string, key: string, ts: string): string {
    "{\"bucket_id\":" + Quoted(bucketId) + (",\"event_source\":\"bucket_marker\",\"marker_key\":" + Quoted(key)
    + (",\"marker_ts\":" + Quoted(ts) + "}"))
  }

  function IdOf(source: Source): Digest {
    match source
    case FromImage(imageId) => Sha256(ImageText(imageId))
    case FromMarker(bucketId, key, ts) => Sha256(MarkerText(bucketId, key, ts))
  }

  // ---------------------------------------------------------------------
  // The row builders
  // ---------------------------------------------------------------------

  function ImageEventType(trigger: string): Option<string> {
    if trigger == "alert" then Some("alert_created")
    else if trigger == "anomaly" then Some("anomaly_detected")
    else if trigger == "novelty" then Some("scene_change")
    else None
  }

  function MarkerEventType(key: string): Option<string> {
    if key == "spike" then Some("activity_spike")
    else if key == "after_hours" then Some("after_hours_activity")
    else if key == "drop" then Some("activity_drop")
    else if key == "start" then Some("activity_start")
    else if key == "late_start" then Some("late_start")
    else if key == "underperforming" then Some("underperforming")
    else None
  }

  /** build_event_row_from_image; None where it raises. */
  function ImageEvent(row: ImageRow, aliases: Aliases): Option<Event> {
    match ImageEventType(row.trigger)
    case None => None
    case Some(eventType) =>
      if row.imageId == "" then None
      else Some(Event(row.serial, Canonical(aliases, row.serial, row.camera), eventType, FromImage(row.imageId)))
  }

  /** build_event_row_from_bucket_marker; None where it raises. */
  function MarkerEvent(row: BucketRow, m: Marker, aliases: Aliases): Option<Event> {
    if m.key.None? || MarkerEventType(m.key.value).None? || m.ts.None? || m.ts.value == "" || row.bucketId == "" then None
    else Some(Event(row.serial, Canonical(aliases, row.serial, row.camera), MarkerEventType(m.key.value).value,
                    FromMarker(row.bucketId, m.key.value, m.ts.value)))
  }

  /** Triggers that the producer and the backfill select. */
  predicate Selected(row: ImageRow) {
    row.trigger == "alert" || row.trigger == "anomaly"
  }

  predicate KnownKey(m: Marker) {
    m.key.Some? && MarkerEventType(m.key.value).Some?
  }

  // ---------------------------------------------------------------------
  // What a source is expected to yield
  // ---------------------------------------------------------------------

  function ImageSources(row: ImageRow): set<Source> {
    if Selected(row) && row.imageId != "" then {FromImage(row.imageId)} else {}
  }

  /** The known markers up to the first one without a timestamp, which stops the bucket. */
  function MarkerSources(bucketId: string, markers: seq<Marker>): set<Source> {
    if markers == [] || bucketId == "" then {}
    else if !KnownKey(markers[0]) then MarkerSources(bucketId, markers[1..])
    else if markers[0].ts.None? || markers[0].ts.value == "" then {}
    else {FromMarker(bucketId, markers[0].key.value, markers[0].ts.value)} + MarkerSources(bucketId, markers[1..])
  }

  function BucketSources(row: BucketRow): set<Source> {
    MarkerSources(row.bucketId, row.markers)
  }

  function IdsOf(sources: set<Source>): set<Digest> {
    set s | s in sources :: IdOf(s)
  }

  /** The sources, when the work on them is kept. */
  function When(kept: bool, sources: set<Source>): set<Source> {
    if kept then sources else {}
  }

  function SourcesOfImage(images: map<string, ImageRow>, imageId: string): set<Source> {
    if imageId in images then ImageSources(images[imageId]) else {}
  }

  function SourcesOfBucket(buckets: map<string, BucketRow>, bucketId: string): set<Source> {
    if bucketId in buckets then BucketSources(buckets[bucketId]) else {}
  }

  /** after holds what before held, unchanged, and an event for each of the sources. */
  ghost predicate Adds(before: Table, after: Table, sources: set<Source>) {
    && after.Keys == before.Keys + IdsOf(sources)
    && (forall id :: id in before ==> after[id] == before[id])
    && (forall id :: id in after && id !in before ==> IdOf(after[id].source) == id)
  }

  lemma AddsTwice(a: Table, b: Table, c: Table, s: set<Source>, t: set<Source>)
    requires Adds(a, b, s) && Adds(b, c, t)
    ensures Adds(a, c, s + t)
  {
  }

  lemma AddsKeeps(a: Table, b: Table, s: set<Source>)
    requires Adds(a, b, s)
    ensures forall id :: id in a ==> id in b && b[id] == a[id]
  {
  }

  lemma AddsNothing(a: Table)
    ensures Adds(a, a, {})
  {
  }

  // ---------------------------------------------------------------------
  // The columns of an event
  // ---------------------------------------------------------------------

  /** The camera by its alias, where it has one. */
  predicate NamedBy(camera: string, aliases: Aliases, serial: string, raw: string) {
    camera == if (serial, raw) in aliases then aliases[(serial, raw)] else raw
  }

  /** The event of an image: its trailer, its camera, the type that its trigger stands for. */
  predicate IsImageEvent(e: Event, row: ImageRow, aliases: Aliases) {
    && e.serial == row.serial && NamedBy(e.camera, aliases, row.serial, row.camera)
    && e.source == FromImage(row.imageId) && row.imageId != ""
    && ((row.trigger == "alert" && e.eventType == "alert_created")
        || (row.trigger == "anomaly" && e.eventType == "anomaly_detected")
        || (row.trigger == "novelty" && e.eventType == "scene_change"))
  }

  /** The public event types of the marker keys. */
  predicate StandsFor(key: string, eventType: string) {
    || (key == "spike" && eventType == "activity_spike")
    || (key == "after_hours" && eventType == "after_hours_activity")
    || (key == "drop" && eventType == "activity_drop")
    || (key == "start" && eventType == "activity_start")
    || (key == "late_start" && eventType == "late_start")
    || (key == "underperforming" && eventType == "underperforming")
  }

  /** The event of a marker of a bucket. */
  predicate IsMarkerEvent(e: Event, row: BucketRow, m: Marker, aliases: Aliases) {
    && e.serial == row.serial && NamedBy(e.camera, aliases, row.serial, row.camera)
    && m.key.Some? && m.ts.Some? && m.ts.value != "" && row.bucketId != ""
    && e.source == FromMarker(row.bucketId, m.key.value, m.ts.value)
    && StandsFor(m.key.value, e.eventType)
  }

  /** The builders build these events and no others, and raise where there is none. */
  lemma BuildersIff(image: ImageRow, bucket: BucketRow, m: Marker, aliases: Aliases, e: Event)
    ensures ImageEvent(image, aliases) == Some(e) <==> IsImageEvent(e, image, aliases)
    ensures MarkerEvent(bucket, m, aliases) == Some(e) <==> IsMarkerEvent(e, bucket, m, aliases)
    ensures KnownKey(m) <==> m.key.Some? && m.key.value in {"spike", "after_hours", "drop", "start", "late_start", "underperforming"}
  {
  }

  /** Every event that was not there before is the event of one of these images. */
  ghost predicate NewFromImages(before: Table, after: Table, rows: seq<ImageRow>, aliases: Aliases) {
    forall id :: id in after && id !in before ==> exists i :: 0 <= i < |rows| && IsImageEvent(after[id], rows[i], aliases)
  }

  /** The same for the markers of buckets. */
  ghost predicate NewFromBuckets(before: Table, after: Table, rows: seq<BucketRow>, aliases: Aliases) {
    forall id :: id in after && id !in before ==>
      exists i, n :: 0 <= i < |rows| && 0 <= n < |rows[i].markers| && IsMarkerEvent(after[id], rows[i], rows[i].markers[n], aliases)
  }

  lemma NewImagesSnoc(a: Table, b: Table, c: Table, rows: seq<ImageRow>, row: ImageRow, aliases: Aliases)
    requires NewFromImages(a, b, rows, aliases) && NewFromImages(b, c, [row], aliases)
    requires forall id :: id in b ==> id in c && c[id] == b[id]
    ensures NewFromImages(a, c, rows + [row], aliases)
  {
    hide IsImageEvent;
    forall id | id in c && id !in a ensures exists i :: 0 <= i < |rows + [row]| && IsImageEvent(c[id], (rows + [row])[i], aliases) {
      if id in b {
        var i :| 0 <= i < |rows| && IsImageEvent(b[id], rows[i], aliases);
        assert (rows + [row])[i] == rows[i];
      } else {
        assert IsImageEvent(c[id], [row][0], aliases);
        assert (rows + [row])[|rows|] == row;
      }
    }
  }

  lemma NewBucketsSnoc(a: Table, b: Table, c: Table, rows: seq<BucketRow>, row: BucketRow, aliases: Aliases)
    requires NewFromBuckets(a, b, rows, aliases) && NewFromBuckets(b, c, [row], aliases)
    requires forall id :: id in b ==> id in c && c[id] == b[id]
    ensures NewFromBuckets(a, c, rows + [row], aliases)
  {
    hide IsMarkerEvent;
    var all := rows + [row];
    forall id | id in c && id !in a
      ensures exists i, n :: 0 <= i < |all| && 0 <= n < |all[i].markers| && IsMarkerEvent(c[id], all[i], all[i].markers[n], aliases)
    {
      if id in b {
        var i, n :| 0 <= i < |rows| && 0 <= n < |rows[i].markers| && IsMarkerEvent(b[id], rows[i], rows[i].markers[n], aliases);
        assert all[i] == rows[i];
      } else {
        var i, n :| 0 <= i < |[row]| && 0 <= n < |[row][i].markers| && IsMarkerEvent(c[id], [row][i], [row][i].markers[n], aliases);
        assert all[|rows|] == row;
      }
    }
  }

  lemma NothingNew(a: Table, aliases: Aliases)
    ensures NewFromImages(a, a, [], aliases) && NewFromBuckets(a, a, [], aliases)
  {
  }

  lemma NoneNew(a: Table, row: ImageRow, aliases: Aliases)
    ensures NewFromImages(a, a, [row], aliases)
  {
  }

  lemma OneNew(a: Table, b: Table, row: ImageRow, aliases: Aliases, e: Event)
    requires ImageEvent(row, aliases) == Some(e)
    requires b == if IdOf(e.source) in a then a else a[IdOf(e.source) := e]
    ensures NewFromImages(a, b, [row], aliases)
    ensures forall id :: id in a ==> id in b && b[id] == a[id]
  {
    hide IdOf;
    BuildersIff(row, BucketRow("", "", "", []), Marker(None, None), aliases, e);
    assert [row][0] == row;
  }

  /** How many markers the loop over a bucket looks at: all, or up to the one that raises. */
  ghost predicate Reaches(row: BucketRow, reached: nat, aliases: Aliases) {
    && reached <= |row.markers|
    && (forall n :: 0 <= n < reached - 1 ==> !Stops(row, n, aliases))
    && (reached < |row.markers| ==> reached > 0 && Stops(row, reached - 1, aliases))
  }

  predicate Stops(row: BucketRow, n: nat, aliases: Aliases)
    requires n < |row.markers|
  {
    KnownKey(row.markers[n]) && MarkerEvent(row, row.markers[n], aliases).None?
  }

  function Sum(s: seq<nat>): nat {
    if s == [] then 0 else Sum(s[..|s| - 1]) + s[|s| - 1]
  }

  class EventStore {
    var events: Table

    constructor ()
      ensures events == map[]
    {
      events := map[];
    }

    /** INSERT ... ON CONFLICT (event_id) DO NOTHING; 1 when a row was inserted. */
    method InsertEvent(e: Event) returns (inserted: nat)
      modifies this
      ensures Adds(old(events), events, {e.source})
      ensures |events| == |old(events)| + inserted
      ensures events == if IdOf(e.source) in old(events) then old(events) else old(events)[IdOf(e.source) := e]
    {
      hide IdOf;
      if IdOf(e.source) in events {
        return 0;
      }
      events := events[IdOf(e.source) := e];
      return 1;
    }

    /** The image half of a live event_produce job; keeps says that the lease held and the work was committed. */
    method ProduceFromImage(images: map<string, ImageRow>, imageId: string, aliases: Aliases, keeps: bool)
      requires forall id :: id in images ==> images[id].imageId == id
      modifies this
      ensures Adds(old(events), events, When(keeps, SourcesOfImage(images, imageId)))
      ensures imageId in images ==> NewFromImages(old(events), events, [images[imageId]], aliases)
    {
      AddsNothing(events);
      if imageId == "" || imageId !in images || !Selected(images[imageId]) || !keeps {
        return;
      }
      var e := ImageEvent(images[imageId], aliases);
      BuildersIff(images[imageId], BucketRow("", "", "", []), Marker(None, None), aliases, e.value);
      assert [images[imageId]][0] == images[imageId];
      var n := InsertEvent(e.value);
    }

    /** The bucket half; an error in a marker ends the loop and what was buffered is committed. */
    method ProduceFromBucket(buckets: map<string, BucketRow>, bucketId: string, aliases: Aliases, keeps: bool)
      requires forall id :: id in buckets ==> buckets[id].bucketId == id
      modifies this
      ensures Adds(old(events), events, When(keeps, SourcesOfBucket(buckets, bucketId)))
      ensures bucketId in buckets ==> NewFromBuckets(old(events), events, [buckets[bucketId]], aliases)
    {
      AddsNothing(events);
      if bucketId == "" || bucketId !in buckets || !keeps {
        return;
      }
      var inspected, n := InsertMarkers(buckets[bucketId], aliases, true);
    }

    /** The loop over a bucket's markers, which the worker and the backfill share in form. */
    method InsertMarkers(row: BucketRow, aliases: Aliases, apply: bool) returns (inspected: nat, inserted: nat)
      modifies this
      ensures Adds(old(events), events, When(apply, BucketSources(row)))
      ensures |events| == |old(events)| + inserted
      ensures NewFromBuckets(old(events), events, [row], aliases) && Reaches(row, inspected, aliases)
    {
      hide IdOf, Adds, IsMarkerEvent;
      assert [row][0] == row;
      inspected, inserted := 0, 0;
      AddsNothing(events);
      ghost var added: set<Source> := {};
      for n := 0 to |row.markers|
        invariant added + MarkerSources(row.bucketId, row.markers[n..]) == BucketSources(row)
        invariant Adds(old(events), events, When(apply, added))
        invariant |events| == |old(events)| + inserted
        invariant NewFromBuckets(old(events), events, [row], aliases)
        invariant inspected == n && forall k :: 0 <= k < n ==> !Stops(row, k, aliases)
      {
        var m := row.markers[n];
        assert row.markers[n..][0] == m && row.markers[n..][1..] == row.markers[n + 1..];
        inspected := inspected + 1;
        if !KnownKey(m) {
          continue;
        }
        var e := MarkerEvent(row, m, aliases);
        if e.None? {
          assert MarkerSources(row.bucketId, row.markers[n..]) == {};
          assert added == BucketSources(row);
          return;
        }
        BuildersIff(ImageRow("", "", "", ""), row, m, aliases, e.value);
        if apply {
          ghost var before := events;
          var k := InsertEvent(e.value);
          AddsTwice(old(events), before, events, added, {e.value.source});
          inserted := inserted + k;
        }
        added := added + {e.value.source};
      }
      assert MarkerSources(row.bucketId, row.markers[|row.markers|..]) == {};
    }

    /** One row of backfill_images: an image that raises is skipped. */
    method BackfillImage(row: ImageRow, aliases: Aliases, apply: bool) returns (inserted: nat)
      requires Selected(row)
      modifies this
      ensures |events| == |old(events)| + inserted
      ensures Adds(old(events), events, When(apply, ImageSources(row)))
      ensures NewFromImages(old(events), events, [row], aliases)
      ensures forall id :: id in old(events) ==> id in events && events[id] == old(events)[id]
    {
      hide IdOf, IsImageEvent, NewFromImages;
      AddsNothing(events);
      NoneNew(events, row, aliases);
      var e := ImageEvent(row, aliases);
      inserted := 0;
      if e.Some? && apply {
        OneNew(events, if IdOf(e.value.source) in events then events else events[IdOf(e.value.source) := e.value], row, aliases, e.value);
        inserted := InsertEvent(e.value);
      }
    }

    /** backfill_images over the rows its query returned. */
    method BackfillImages(rows: seq<ImageRow>, aliases: Aliases, apply: bool) returns (inspected: nat, inserted: nat)
      requires forall row :: row in rows ==> Selected(row)
      modifies this
      ensures inspected == |rows| && |events| == |old(events)| + inserted
      ensures Adds(old(events), events, When(apply, SourcesOfImages(rows)))
      ensures NewFromImages(old(events), events, rows, aliases)
    {
      hide IdOf, Adds, IsImageEvent, NewFromImages, ImageSources, Selected, SourcesOfImages, When;
      NoImages(apply);
      NothingNew(events, aliases);
      inspected, inserted := 0, 0;
      AddsNothing(events);
      for n := 0 to |rows|
        invariant inspected == n && |events| == |old(events)| + inserted
        invariant Adds(old(events), events, When(apply, SourcesOfImages(rows[..n])))
        invariant NewFromImages(old(events), events, rows[..n], aliases)
      {
        ghost var was := events;
        assert rows[..n + 1] == rows[..n] + [rows[n]] && rows[..n + 1][..n] == rows[..n];
        inspected := inspected + 1;
        assert rows[n] in rows;
        var k := BackfillImage(rows[n], aliases, apply);
        ImagesSnoc(rows[..n], rows[n], apply);
        AddsTwice(old(events), was, events, When(apply, SourcesOfImages(rows[..n])), When(apply, ImageSources(rows[n])));
        NewImagesSnoc(old(events), was, events, rows[..n], rows[n], aliases);
        inserted := inserted + k;
      }
      assert rows[..|rows|] == rows;
    }

    /** backfill_buckets over the rows its query returned. */
    method BackfillBuckets(rows: seq<BucketRow>, aliases: Aliases, apply: bool) returns (inspected: nat, inserted: nat)
      modifies this
      ensures |events| == |old(events)| + inserted
      ensures Adds(old(events), events, When(apply, SourcesOfBuckets(rows)))
      ensures NewFromBuckets(old(events), events, rows, aliases)
      ensures exists reached :: |reached| == |rows| && inspected == Sum(reached) && forall i :: 0 <= i < |rows| ==> Reaches(rows[i], reached[i], aliases)
    {
      hide IdOf, Adds, IsMarkerEvent, NewFromBuckets, Reaches, SourcesOfBuckets, BucketSources, When;
      NoBuckets(apply);
      inspected, inserted := 0, 0;
      AddsNothing(events);
      NothingNew(events, aliases);
      ghost var reached := [];
      for n := 0 to |rows|
        invariant |events| == |old(events)| + inserted
        invariant Adds(old(events), events, When(apply, SourcesOfBuckets(rows[..n])))
        invariant NewFromBuckets(old(events), events, rows[..n], aliases)
        invariant |reached| == n && inspected == Sum(reached) && forall i :: 0 <= i < n ==> Reaches(rows[i], reached[i], aliases)
      {
        assert rows[..n + 1][..n] == rows[..n] && rows[..n + 1] == rows[..n] + [rows[n]];
        ghost var before := events;
        var i, k := InsertMarkers(rows[n], aliases, apply);
        AddsKeeps(before, events, When(apply, BucketSources(rows[n])));
        NewBucketsSnoc(old(events), before, events, rows[..n], rows[n], aliases);
        assert (reached + [i])[..n] == reached;
        reached := reached + [i];
        BucketsSnoc(rows[..n], rows[n], apply);
        AddsTwice(old(events), before, events, When(apply, SourcesOfBuckets(rows[..n])), When(apply, BucketSources(rows[n])));
        inspected, inserted := inspected + i, inserted + k;
      }
      assert rows[..|rows|] == rows;
    }
  }

  function SourcesOfImages(rows: seq<ImageRow>): set<Source> {
    if rows == [] then {} else SourcesOfImages(rows[..|rows| - 1]) + ImageSources(rows[|rows| - 1])
  }

  lemma ImagesSnoc(rows: seq<ImageRow>, row: ImageRow, apply: bool)
    ensures When(apply, SourcesOfImages(rows + [row])) == When(apply, SourcesOfImages(rows)) + When(apply, ImageSources(row))
  {
    assert (rows + [row])[..|rows|] == rows;
  }

  lemma BucketsSnoc(rows: seq<BucketRow>, row: BucketRow, apply: bool)
    ensures When(apply, SourcesOfBuckets(rows + [row])) == When(apply, SourcesOfBuckets(rows)) + When(apply, BucketSources(row))
  {
    assert (rows + [row])[..|rows|] == rows;
  }

  lemma NoBuckets(apply: bool)
    ensures When(apply, SourcesOfBuckets([])) == {}
  {
  }

  lemma NoImages(apply: bool)
    ensures When(apply, SourcesOfImages([])) == {}
  {
  }

  function SourcesOfBuckets(rows: seq<BucketRow>): set<Source> {
    if rows == [] then {} else SourcesOfBuckets(rows[..|rows| - 1]) + BucketSources(rows[|rows| - 1])
  }
}
