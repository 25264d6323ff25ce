/** Which events a run of live production and backfill ends with. */
module EventTheorems {
  import opened Options
  import opened Json
  import opened Events

  lemma CutPrefix(p: string, s: string, t: string)
    requires p + s == p + t
    ensures s == t
  {
    assert (p + s)[|p|..] == s && (p + t)[|p|..] == t;
  }

  lemma ImageTextInjective(a: string, b: string)
    requires ImageText(a) == ImageText(b)
    ensures a == b
  {
    hide Quoted;
    var head := "{\"event_source\":\"image_trigger\",\"image_id\":";
    assert ImageText(a) == head + (Quoted(a) + "}") && ImageText(b) == head + (Quoted(b) + "}");
    CutPrefix(head, Quoted(a) + "}", Quoted(b) + "}");
    QuotedInjective(a, b, "}", "}");
  }

  function AfterBucket(key: string, ts: string): string {
    ",\"event_source\":\"bucket_marker\",\"marker_key\":" + Quoted(key) + AfterKey(ts)
  }

  function AfterKey(ts: string): string {
    ",\"marker_ts\":" + Quoted(ts) + "}"
  }

  lemma MarkerTextParts(b: string, k: string, t: string)
    ensures MarkerText(b, k, t) == "{\"bucket_id\":" + (Quoted(b) + AfterBucket(k, t))
  {
  }

  lemma MarkerTextInjective(b: string, k: string, t: string, b': string, k': string, t': string)
    requires MarkerText(b, k, t) == MarkerText(b', k', t')
    ensures b == b' && k == k' && t == t'
  {
    MarkerTextParts(b, k, t);
    MarkerTextParts(b', k', t');
    hide Quoted, MarkerText;
    CutPrefix("{\"bucket_id\":", Quoted(b) + AfterBucket(k, t), Quoted(b') + AfterBucket(k', t'));
    QuotedInjective(b, b', AfterBucket(k, t), AfterBucket(k', t'));
    AfterBucketInjective(k, t, k', t');
  }

  lemma AfterBucketInjective(k: string, t: string, k': string, t': string)
    requires AfterBucket(k, t) == AfterBucket(k', t')
    ensures k == k' && t == t'
  {
    hide Quoted;
    var head := ",\"event_source\":\"bucket_marker\",\"marker_key\":";
    assert AfterBucket(k, t) == head + (Quoted(k) + AfterKey(t)) && AfterBucket(k', t') == head + (Quoted(k') + AfterKey(t'));
    CutPrefix(head, Quoted(k) + AfterKey(t), Quoted(k') + AfterKey(t'));
    QuotedInjective(k, k', AfterKey(t), AfterKey(t'));
    var mid := ",\"marker_ts\":";
    assert AfterKey(t) == mid + (Quoted(t) + "}") && AfterKey(t') == mid + (Quoted(t') + "}");
    CutPrefix(mid, Quoted(t) + "}", Quoted(t') + "}");
    QuotedInjective(t, t', "}", "}");
  }

  /** An event id stands for one image or one (bucket, marker key, timestamp). */
  lemma IdsAreInjective(a: Source, b: Source)
    ensures IdOf(a) == IdOf(b) <==> a == b
  {
    hide Quoted;
    if IdOf(a) == IdOf(b) {
      match (a, b)
      case (FromImage(i), FromImage(j)) => ImageTextInjective(i, j);
      case (FromMarker(p, k, t), FromMarker(p', k', t')) => MarkerTextInjective(p, k, t, p', k', t');
      case (FromImage(i), FromMarker(p, k, t)) => KindsDiffer(i, p, k, t);
      case (FromMarker(p, k, t), FromImage(i)) => KindsDiffer(i, p, k, t);
    }
  }

  lemma KindsDiffer(i: string, p: string, k: string, t: string)
    ensures ImageText(i) != MarkerText(p, k, t)
  {
    hide Quoted;
    assert ImageText(i)[2] == 'e' && MarkerText(p, k, t)[2] == 'b';
  }

  /** Which sources a bucket yields: known, with a timestamp, and no known marker without one before it. */
  lemma {:induction false} MarkerSourcesIff(bucketId: string, markers: seq<Marker>, s: Source)
    requires bucketId != ""
    ensures s in MarkerSources(bucketId, markers) <==> exists n :: 0 <= n < |markers| && Yields(bucketId, markers, n, s)
  {
    if markers != [] {
      var rest := markers[1..];
      MarkerSourcesIff(bucketId, rest, s);
      var goes := !KnownKey(markers[0]) || Stamped(markers[0]);
      assert goes ==> forall n :: 0 <= n < |rest| ==> (Yields(bucketId, rest, n, s) <==> Yields(bucketId, markers, n + 1, s)) by {
        forall n | goes && 0 <= n < |rest| ensures Yields(bucketId, rest, n, s) <==> Yields(bucketId, markers, n + 1, s) {
          YieldsShift(bucketId, markers, n, s);
        }
      }
      if n :| 0 <= n < |markers| && Yields(bucketId, markers, n, s) && n > 0 {
        assert goes && rest[n - 1] == markers[n];
        assert Yields(bucketId, rest, n - 1, s);
      }
      if goes {
        if n :| 0 <= n < |rest| && Yields(bucketId, rest, n, s) {
          assert Yields(bucketId, markers, n + 1, s);
        }
      }
      assert KnownKey(markers[0]) && Stamped(markers[0]) && s == FromMarker(bucketId, markers[0].key.value, markers[0].ts.value) ==> Yields(bucketId, markers, 0, s);
    }
  }

  /** Which sources a list of images yields: alerts and anomalies that have an id. */
  lemma {:induction false} ImageSourcesIff(rows: seq<ImageRow>, s: Source)
    ensures s in SourcesOfImages(rows) <==>
      exists i :: 0 <= i < |rows| && rows[i].trigger in {"alert", "anomaly"} && |rows[i].imageId| > 0 && s == FromImage(rows[i].imageId)
  {
    if rows != [] {
      ImageSourcesIff(rows[..|rows| - 1], s);
    }
  }

  /** A list of buckets yields what each of them yields; a bucket without an id nothing. */
  lemma {:induction false} BucketSourcesIff(rows: seq<BucketRow>, s: Source)
    ensures s in SourcesOfBuckets(rows) <==>
      exists i :: 0 <= i < |rows| && |rows[i].bucketId| > 0 && s in MarkerSources(rows[i].bucketId, rows[i].markers)
  {
    hide MarkerSources;
    if rows != [] {
      BucketSourcesIff(rows[..|rows| - 1], s);
      NamelessYieldsNothing(rows[|rows| - 1].markers);
    }
  }

  lemma NamelessYieldsNothing(markers: seq<Marker>)
    ensures MarkerSources("", markers) == {}
  {
  }

  predicate Stamped(m: Marker) {
    m.ts.Some? && m.ts.value != ""
  }

  predicate Yields(bucketId: string, markers: seq<Marker>, n: int, s: Source)
    requires 0 <= n < |markers|
  {
    && KnownKey(markers[n]) && Stamped(markers[n])
    && s == FromMarker(bucketId, markers[n].key.value, markers[n].ts.value)
    && forall m :: 0 <= m < n && KnownKey(markers[m]) ==> Stamped(markers[m])
  }

  lemma YieldsShift(bucketId: string, markers: seq<Marker>, n: int, s: Source)
    requires markers != [] && 0 <= n < |markers| - 1 && (!KnownKey(markers[0]) || Stamped(markers[0]))
    ensures Yields(bucketId, markers[1..], n, s) <==> Yields(bucketId, markers, n + 1, s)
  {
  }

  // ---------------------------------------------------------------------
  // Runs
  // ---------------------------------------------------------------------

  function Union(work: seq<set<Source>>): set<Source> {
    if work == [] then {} else Union(work[..|work| - 1]) + work[|work| - 1]
  }

  /** The tables of a run that starts empty, each piece of work adding its sources. */
  ghost predicate IsRun(tables: seq<Table>, work: seq<set<Source>>) {
    && |tables| == |work| + 1 && tables[0] == map[]
    && forall n :: 0 <= n < |work| ==> Adds(tables[n], tables[n + 1], work[n])
  }

  lemma {:induction false} RunAdds(tables: seq<Table>, work: seq<set<Source>>)
    requires IsRun(tables, work)
    ensures Adds(map[], tables[|work|], Union(work))
  {
    if work != [] {
      var n := |work| - 1;
      RunAdds(tables[..n + 1], work[..n]);
      AddsTwice(map[], tables[n], tables[n + 1], Union(work[..n]), work[n]);
    }
  }

  /** Each event of the table is one of the sources worked on, under its own id. */
  lemma EventsAreSources(tables: seq<Table>, work: seq<set<Source>>, id: Digest)
    requires IsRun(tables, work) && id in tables[|work|]
    ensures tables[|work|][id].source in Union(work) && IdOf(tables[|work|][id].source) == id
  {
    RunAdds(tables, work);
    var s :| s in Union(work) && IdOf(s) == id;
    IdsAreInjective(s, tables[|work|][id].source);
  }

  /**
   Two runs, live or backfill, in any order and with any repetition and aliases, end with the
   same event ids exactly when they worked on the same sources.
   */
  lemma SameEventsIff(tables: seq<Table>, work: seq<set<Source>>, tables': seq<Table>, work': seq<set<Source>>)
    requires IsRun(tables, work) && IsRun(tables', work')
    ensures tables[|work|].Keys == tables'[|work'|].Keys <==> Union(work) == Union(work')
  {
    RunAdds(tables, work);
    RunAdds(tables', work');
    if IdsOf(Union(work)) == IdsOf(Union(work')) {
      IdsOfSubset(Union(work), Union(work'));
      IdsOfSubset(Union(work'), Union(work));
    }
  }

  lemma IdsOfSubset(a: set<Source>, b: set<Source>)
    requires IdsOf(a) <= IdsOf(b)
    ensures a <= b
  {
    hide IdOf;
    forall s | s in a ensures s in b {
      assert IdOf(s) in IdsOf(b);
      var t :| t in b && IdOf(t) == IdOf(s);
      IdsAreInjective(s, t);
    }
  }
}
