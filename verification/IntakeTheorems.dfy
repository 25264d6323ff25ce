/** What becomes of every accepted fragment. */
module IntakeTheorems {
  import opened ColonKeys
  import opened Options
  import opened Canonical
  import opened IntakeKeys
  import opened Intake

  /** A later fragment of the same window and object type was accepted. */
  ghost predicate Superseded(s: Store, n: nat)
    requires n < |s.accepted|
  {
    exists m :: n < m < |s.accepted| && SameSlot(s.accepted, n, m)
  }

  ghost predicate InHash(s: Store, n: nat)
    requires n < |s.accepted|
  {
    Held(s.hashes, s.accepted[n].key, s.accepted[n].f.objectType) == Some(s.accepted[n].f)
  }

  /** Passed to ingest_bucket, in the call for its window. */
  ghost predicate Passed(s: Store, n: nat)
    requires n < |s.accepted|
  {
    exists g :: g in s.ingests && g.key == s.accepted[n].key && s.accepted[n].f in g.fragments
  }

  ghost predicate Finished(s: Store, key: string) {
    DoneOf(key) in s.done
  }

  /** An ingest of the window left its hash behind, because the marker write or the deletion failed. */
  ghost predicate LeftBehind(s: Store, key: string) {
    exists i :: 0 <= i < |s.ingests| && s.ingests[i].key == key && LeavesHash(s.ingests[i].fate)
  }

  /** A done marker comes from an ingest of everything the window will ever hold. */
  lemma FinishedByIngest(s: Store, key: string)
    requires Good(s) && IsAggKey(key) && Finished(s, key)
    ensures exists g :: g in s.ingests && g.key == key && Complete(g, s.accepted)
  {
    hide Complete, WasComplete, IsAggKey, DoneOf;
    var g :| g in s.ingests && g.fate != MarkRaises && DoneOf(g.key) == DoneOf(key);
    var i :| 0 <= i < |s.ingests| && s.ingests[i] == g;
    assert GoodIngest(s.ingests[i], s);
    DoneOfInjective(g.key, key);
  }

  lemma PassedWaits(s: Store, n: nat)
    requires Good(s) && n < |s.accepted| && Passed(s, n) && InHash(s, n)
    ensures LeftBehind(s, s.accepted[n].key)
  {
    hide IsAggKey, DoneOf, Complete, WasComplete;
    var g :| g in s.ingests && g.key == s.accepted[n].key && s.accepted[n].f in g.fragments;
    var i :| 0 <= i < |s.ingests| && s.ingests[i] == g;
    assert GoodIngest(s.ingests[i], s);
  }

  /**
   Accepted and not superseded: in the hash until the window is finished, passed to ingest_bucket
   once it is, and both only where a marker write or a deletion failed.
   */
  lemma FragmentsAreConserved(s: Store, n: nat)
    requires Good(s) && n < |s.accepted| && !Internal(s.accepted[n].f.objectType)
    ensures Superseded(s, n) || InHash(s, n) || Passed(s, n)
    ensures !Superseded(s, n) && !Finished(s, s.accepted[n].key) ==> InHash(s, n)
    ensures !Superseded(s, n) && Finished(s, s.accepted[n].key) ==> Passed(s, n)
    ensures InHash(s, n) && Passed(s, n) ==> LeftBehind(s, s.accepted[n].key)
  {
    hide IsAggKey, DoneOf, ParseOf, Waits, WasComplete;
    var a := s.accepted[n];
    assert a in s.accepted;
    if !Superseded(s, n) {
      assert forall m :: n < m < |s.accepted| ==> !SameSlot(s.accepted, n, m);
      LatestMeaning(s.accepted, n);
      if Finished(s, a.key) {
        FinishedByIngest(s, a.key);
        var g :| g in s.ingests && g.key == a.key && Complete(g, s.accepted);
      } else {
        assert Held(s.hashes, a.key, a.f.objectType) == Latest(s.accepted, a.key, a.f.objectType);
      }
    }
    if InHash(s, n) && Passed(s, n) {
      PassedWaits(s, n);
    }
  }

  /** In no state has a fragment whose object type starts with an underscore reached ingest_bucket. */
  lemma InternalNeverPassed(s: Store, n: nat)
    requires Good(s) && n < |s.accepted| && Internal(s.accepted[n].f.objectType)
    ensures !Passed(s, n)
  {
    hide IsAggKey, DoneOf;
    forall g | g in s.ingests && g.key == s.accepted[n].key ensures s.accepted[n].f !in g.fragments {
      var i :| 0 <= i < |s.ingests| && s.ingests[i] == g;
      assert GoodIngest(s.ingests[i], s);
      var m :| 0 <= m <= |s.accepted| && Complete(g, s.accepted[..m]);
    }
  }

  /** A finished window passed on its fragments, except those whose object type starts with an underscore. */
  lemma PassedIffNotInternal(s: Store, n: nat)
    requires Good(s) && n < |s.accepted|
    requires !Superseded(s, n) && Finished(s, s.accepted[n].key)
    ensures Passed(s, n) <==> !Internal(s.accepted[n].f.objectType)
  {
    if Internal(s.accepted[n].f.objectType) {
      InternalNeverPassed(s, n);
    } else {
      FragmentsAreConserved(s, n);
    }
  }

  const EMPTY: Store := Store(map[], {}, {}, [], [])

  /** A window that only ever gets such a fragment is cleaned up without a trace and without a done marker. */
  lemma InternalOnlyWindowVanishes(p: Payload, now: real)
    requires Internal(p.fragment.objectType)
    ensures var s := AfterCleanup(AfterStore(EMPTY, p, now), KeyOf(p), Completes);
      Good(s) && |s.accepted| == 1 && !InHash(s, 0) && !Passed(s, 0) && !Superseded(s, 0) && !Finished(s, KeyOf(p))
  {
    hide KeyOf, DoneOf, IsAggKey;
    StoreKeeps(EMPTY, p, now);
    CleanupKeeps(AfterStore(EMPTY, p, now), KeyOf(p), Completes);
  }

  /**
   Exactly when an ingest left its hash behind is its window ingested again, or waits for it:
   a marker write or a deletion that fails is what makes a second ingest.
   */
  lemma IngestedAgainIff(s: Store, i: nat)
    requires Good(s) && i < |s.ingests|
    ensures LeavesHash(s.ingests[i].fate) <==> s.ingests[i].key in s.hashes || Repeated(s.ingests, i)
  {
    hide GoodKeys, GoodIngests, Tracks, Repeated;
  }

  /** Two ingests of one window, however its names are spelled: the first of them left the hash behind. */
  lemma OneIngestPerWindow(s: Store, i: nat, j: nat)
    requires Good(s) && i < j < |s.ingests|
    requires s.ingests[i].window == s.ingests[j].window
    ensures LeavesHash(s.ingests[i].fate)
  {
    WindowGivesKey(s, i);
    WindowGivesKey(s, j);
    IngestedAgainIff(s, i);
  }

  /** A marker write that fails can make the second ingest carry newer fragments. */
  lemma MarkFailureRepeats(p: Payload, q: Payload, now: real)
    requires KeyOf(q) == KeyOf(p) && !Internal(p.fragment.objectType) && p.fragment.objectType == q.fragment.objectType
    ensures var w := ParseOf(KeyOf(p));
      var g, h := Ingest(KeyOf(p), w, [p.fragment], MarkRaises), Ingest(KeyOf(p), w, [q.fragment], Completes);
      var s := AfterIngest(AfterStore(AfterIngest(AfterStore(EMPTY, p, now), g), q, now), h);
      Good(s) && s.ingests == [g, h]
  {
    hide KeyOf, DoneOf, IsAggKey, ParseOf, Good;
    var w := ParseOf(KeyOf(p));
    var g, h := Ingest(KeyOf(p), w, [p.fragment], MarkRaises), Ingest(KeyOf(p), w, [q.fragment], Completes);
    var s1 := AfterStore(EMPTY, p, now);
    EmptyIsGood();
    StoreKeeps(EMPTY, p, now);
    OnlyFragment(s1.hashes[KeyOf(p)], map[], p.fragment, now);
    IngestKeeps(s1, g);
    var s2 := AfterIngest(s1, g);
    var s3 := AfterStore(s2, q, now);
    StoreKeeps(s2, q, now);
    OnlyFragment(s3.hashes[KeyOf(p)], s2.hashes[KeyOf(p)], q.fragment, now);
    IngestKeeps(s3, h);
  }

  lemma EmptyIsGood()
    ensures Good(EMPTY)
  {
  }

  /** A hash that holds one fragment, and lists it. */
  lemma OnlyFragment(h: Hash, before: Hash, f: Fragment, now: real)
    requires !Internal(f.objectType) && h == before[f.objectType := Frag(f)][UPDATED_AT := Stamp(now)]
    requires before.Keys <= {f.objectType, UPDATED_AT}
    ensures Lists([f], h)
  {
  }

  lemma WindowGivesKey(s: Store, i: nat)
    requires Good(s) && i < |s.ingests|
    ensures s.ingests[i].key == AggKey(s.ingests[i].window.serial, s.ingests[i].window.camera, s.ingests[i].window.iso)
  {
    hide Split, Parse;
    var g := s.ingests[i];
    assert g in s.ingests && IsAggKey(g.key);
    var serial, camera, iso :| g.key == AggKey(serial, camera, iso);
    ParsedTail(serial, camera, iso);
    ParsedKey(g.key);
  }

  /** The ingest call for an accepted payload names its trailer and camera exactly when these hold no colon. */
  lemma IngestNamesSenderIff(s: Store, g: Ingest, p: Payload)
    requires Good(s) && g in s.ingests && g.key == KeyOf(p)
    ensures g.window == Window(p.serial, p.camera, p.iso) <==> ':' !in p.serial && ':' !in p.camera
  {
    ParseIff(p.serial, p.camera, p.iso);
    ParsedKey(g.key);
  }

  /** Two cameras share the window of one start time exactly when their names, joined by a colon, read the same. */
  lemma CamerasShareWindowIff(serial: string, camera: string, serial': string, camera': string, iso: string)
    ensures AggKey(serial, camera, iso) == AggKey(serial', camera', iso) <==> SamePair(serial, camera, serial', camera')
  {
    var a, b := serial + ":" + camera, serial' + ":" + camera';
    var x, y := AggKey(serial, camera, iso), AggKey(serial', camera', iso);
    assert x == AGG_PREFIX + a + (":" + iso) && y == AGG_PREFIX + b + (":" + iso);
    assert x[|AGG_PREFIX|..|x| - 1 - |iso|] == a && y[|AGG_PREFIX|..|y| - 1 - |iso|] == b;
    JoinedIff(serial, camera, serial', camera');
  }

  /** Two different cameras that do. */
  lemma ColonsCanMixCameras(iso: string)
    ensures AggKey("a:b", "c", iso) == AggKey("a", "b:c", iso)
  {
    CamerasShareWindowIff("a:b", "c", "a", "b:c", iso);
  }
}
