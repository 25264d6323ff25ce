/**
 Fragment intake on Redis: the webhook stores fragments per window, the finalizer
 drains the windows that have been quiet and hands each to ingest_bucket.  The two
 run on one event loop, so each method below is one indivisible step of a run.
 */
module Intake {
  import opened Options
  import opened Canonical
  import opened IntakeKeys

  datatype Field = Frag(f: Fragment) | Stamp(at: real)

  type Hash = map<string, Field>

  const UPDATED_AT := "_updated_at"
  const QUIET_SECONDS := 30.0

  datatype Payload = Payload(eventId: string, serial: string, camera: string, iso: string, fragment: Fragment)

  datatype Reply = Duplicate | LateDiscarded | Stored

  /** Where finalizing a window ends: at a call that raises, or at its end. */
  datatype Fate = IngestRaises | MarkRaises | DeleteRaises | RemoveRaises | Completes

  /** One call of ingest_bucket that returned, and what became of the finalization after it. */
  datatype Ingest = Ingest(key: string, window: Window, fragments: seq<Fragment>, fate: Fate)

  /** The hash outlives the ingest: its marker was not written, or it was not deleted. */
  predicate LeavesHash(fate: Fate) {
    fate == MarkRaises || fate == DeleteRaises
  }

  datatype Accepted = Accepted(key: string, f: Fragment)

  /** field.startswith("_"): skipped by the finalizer. */
  predicate Internal(field: string) {
    field != "" && field[0] == '_'
  }

  function KeyOf(p: Payload): string {
    AggKey(p.serial, p.camera, p.iso)
  }

  /** The last fragment accepted for a window and an object type. */
  function Latest(accepted: seq<Accepted>, key: string, objectType: string): Option<Fragment> {
    if accepted == [] then None
    else
      var last := accepted[|accepted| - 1];
      if last.key == key && last.f.objectType == objectType then Some(last.f)
      else Latest(accepted[..|accepted| - 1], key, objectType)
  }

  function Held(hashes: map<string, Hash>, key: string, objectType: string): Option<Fragment> {
    if key in hashes && objectType in hashes[key] && hashes[key][objectType].Frag?
    then Some(hashes[key][objectType].f) else None
  }

  ghost predicate GoodHash(h: Hash) {
    && UPDATED_AT in h && h[UPDATED_AT].Stamp?
    && forall field :: field in h && field != UPDATED_AT ==> h[field].Frag? && h[field].f.objectType == field
  }

  predicate HasFragments(h: Hash) {
    exists field :: field in h && !Internal(field)
  }

  /** fs lists the fragments of h that are not internal, each once. */
  ghost predicate Lists(fs: seq<Fragment>, h: Hash) {
    DistinctTypes(fs) && forall f :: f in fs <==> !Internal(f.objectType) && f.objectType in h && h[f.objectType] == Frag(f)
  }

  /** The fragments handed to ingest_bucket are the last accepted of each type that is not internal. */
  ghost predicate Complete(g: Ingest, accepted: seq<Accepted>) {
    DistinctTypes(g.fragments) && g.fragments != []
    && forall f :: f in g.fragments <==> !Internal(f.objectType) && Latest(accepted, g.key, f.objectType) == Some(f)
  }

  function KeysOf(ingests: seq<Ingest>): set<string> {
    set g | g in ingests :: g.key
  }

  /** The windows whose done marker was written. */
  function DoneMarkers(ingests: seq<Ingest>): set<string> {
    set g | g in ingests && g.fate != MarkRaises :: DoneOf(g.key)
  }

  lemma StoredKey(p: Payload)
    ensures IsAggKey(KeyOf(p)) && DoneOf(KeyOf(p)) == DoneKey(p.serial, p.camera, p.iso)
  {
  }

  lemma {:induction false} LatestMeaning(accepted: seq<Accepted>, n: nat)
    requires n < |accepted|
    requires forall m :: n < m < |accepted| ==> !SameSlot(accepted, n, m)
    ensures Latest(accepted, accepted[n].key, accepted[n].f.objectType) == Some(accepted[n].f)
  {
    if n < |accepted| - 1 {
      assert !SameSlot(accepted, n, |accepted| - 1);
      var init := accepted[..|accepted| - 1];
      forall m | n < m < |init| ensures !SameSlot(init, n, m) {
        assert !SameSlot(accepted, n, m);
      }
      LatestMeaning(init, n);
    }
  }

  ghost predicate SameSlot(accepted: seq<Accepted>, n: nat, m: nat)
    requires n < |accepted| && m < |accepted|
  {
    accepted[m].key == accepted[n].key && accepted[m].f.objectType == accepted[n].f.objectType
  }

  /** hgetall and the loop over its fields, which come in any order. */
  method ReadFragments(h: Hash) returns (fs: seq<Fragment>)
    requires GoodHash(h)
    ensures Lists(fs, h)
    ensures fs == [] <==> !HasFragments(h)
    ensures forall f :: f in fs <==> !("_" <= f.objectType) && f.objectType in h && h[f.objectType] == Frag(f)
  {
    fs := [];
    var todo := h.Keys;
    while todo != {}
      invariant todo <= h.Keys
      invariant DistinctTypes(fs)
      invariant forall f :: f in fs <==> !Internal(f.objectType) && f.objectType in h.Keys - todo && h[f.objectType] == Frag(f)
    {
      var field :| field in todo;
      todo := todo - {field};
      if !Internal(field) {
        fs := fs + [h[field].f];
      }
    }
    if fs != [] {
      assert fs[0] in fs;
    }
    forall field | field in h && !Internal(field) ensures fs != [] {
      assert h[field].f in fs;
    }
  }

  // ---------------------------------------------------------------------
  // The store and its steps
  // ---------------------------------------------------------------------

  /** Redis, the ingest calls made so far and, for the statements only, what was accepted. */
  datatype Store = Store(
    hashes: map<string, Hash>,
    active: set<string>,
    done: set<string>,
    ingests: seq<Ingest>,
    accepted: seq<Accepted>)

  ghost predicate GoodKeys(s: Store) {
    && s.hashes.Keys <= s.active
    && (forall k :: k in s.hashes ==> IsAggKey(k) && GoodHash(s.hashes[k]))
  }

  /** The fragments were complete when they were ingested. */
  ghost predicate WasComplete(g: Ingest, accepted: seq<Accepted>) {
    exists n :: 0 <= n <= |accepted| && Complete(g, accepted[..n])
  }

  ghost predicate GoodIngest(g: Ingest, s: Store) {
    && IsAggKey(g.key) && g.window == ParseOf(g.key) && g.fate != IngestRaises
    && WasComplete(g, s.accepted)
    && (g.fate != MarkRaises ==> Complete(g, s.accepted))
    && (!LeavesHash(g.fate) ==> g.key !in s.hashes)
  }

  /** A later ingest of the same window. */
  ghost predicate Repeated(ingests: seq<Ingest>, i: nat)
    requires i < |ingests|
  {
    exists j :: i < j < |ingests| && ingests[j].key == ingests[i].key
  }

  ghost predicate GoodIngests(s: Store) {
    && (forall a :: a in s.accepted ==> IsAggKey(a.key))
    && (forall i :: 0 <= i < |s.ingests| ==> GoodIngest(s.ingests[i], s))
    && s.done == DoneMarkers(s.ingests)
  }

  /** A window is ingested again, or waits for it, exactly when an ingest left its hash behind. */
  ghost predicate Waits(s: Store) {
    forall i :: 0 <= i < |s.ingests| ==> (LeavesHash(s.ingests[i].fate) <==> s.ingests[i].key in s.hashes || Repeated(s.ingests, i))
  }

  /** A hash, and every unfinished window's hash, holds the last accepted fragment of every type. */
  ghost predicate Tracks(s: Store) {
    forall k, t :: IsAggKey(k) && (DoneOf(k) !in s.done || k in s.hashes) && !Internal(t) ==> Held(s.hashes, k, t) == Latest(s.accepted, k, t)
  }

  ghost predicate Good(s: Store) {
    GoodKeys(s) && GoodIngests(s) && Waits(s) && Tracks(s)
  }

  function AfterStore(s: Store, p: Payload, now: real): Store {
    var h := if KeyOf(p) in s.hashes then s.hashes[KeyOf(p)] else map[];
    s.(hashes := s.hashes[KeyOf(p) := h[p.fragment.objectType := Frag(p.fragment)][UPDATED_AT := Stamp(now)]],
       active := s.active + {KeyOf(p)},
       accepted := s.accepted + [Accepted(KeyOf(p), p.fragment)])
  }

  /** DELETE, then SREM, as far as they get. */
  function AfterCleanup(s: Store, key: string, fate: Fate): Store {
    if fate == DeleteRaises then s
    else if fate == RemoveRaises then s.(hashes := s.hashes - {key})
    else s.(hashes := s.hashes - {key}, active := s.active - {key})
  }

  /** The ingest, the done marker, the cleanup, as far as they get. */
  function AfterIngest(s: Store, g: Ingest): Store {
    var t := s.(ingests := s.ingests + [g]);
    if g.fate == MarkRaises then t
    else AfterCleanup(t.(done := s.done + {DoneOf(g.key)}), g.key, g.fate)
  }

  // ---------------------------------------------------------------------
  // Storing keeps the store good
  // ---------------------------------------------------------------------

  lemma LatestSnoc(accepted: seq<Accepted>, a: Accepted, key: string, objectType: string)
    ensures Latest(accepted + [a], key, objectType) ==
            if a.key == key && a.f.objectType == objectType then Some(a.f) else Latest(accepted, key, objectType)
  {
    assert (accepted + [a])[..|accepted|] == accepted;
  }

  lemma {:induction false} LatestPersists(accepted: seq<Accepted>, n: nat, key: string, objectType: string)
    requires n <= |accepted| && Latest(accepted[..n], key, objectType).Some?
    ensures Latest(accepted, key, objectType).Some?
  {
    if n == |accepted| {
      assert accepted[..n] == accepted;
    } else {
      var init := accepted[..|accepted| - 1];
      assert init[..n] == accepted[..n];
      LatestPersists(init, n, key, objectType);
    }
  }

  /** Accepting a fragment of another window changes nothing for this one. */
  lemma CompleteKept(g: Ingest, accepted: seq<Accepted>, a: Accepted)
    requires Complete(g, accepted) && a.key != g.key
    ensures Complete(g, accepted + [a])
  {
    forall t ensures Latest(accepted + [a], g.key, t) == Latest(accepted, g.key, t) {
      LatestSnoc(accepted, a, g.key, t);
    }
  }

  lemma WasCompleteKept(g: Ingest, accepted: seq<Accepted>, a: Accepted)
    requires WasComplete(g, accepted)
    ensures WasComplete(g, accepted + [a])
  {
    var n :| 0 <= n <= |accepted| && Complete(g, accepted[..n]);
    assert (accepted + [a])[..n] == accepted[..n];
  }

  lemma StoreKeepsIngests(s: Store, p: Payload, now: real)
    requires Good(s) && DoneOf(KeyOf(p)) !in s.done
    ensures GoodIngests(AfterStore(s, p, now)) && Waits(AfterStore(s, p, now))
  {
    hide IsAggKey, DoneOf, ParseOf, KeyOf, WasComplete, Complete, Tracks, GoodKeys;
    var next, a := AfterStore(s, p, now), Accepted(KeyOf(p), p.fragment);
    StoredKey(p);
    forall i | 0 <= i < |s.ingests| ensures GoodIngest(s.ingests[i], next) {
      var g := s.ingests[i];
      assert g in s.ingests && GoodIngest(g, s);
      WasCompleteKept(g, s.accepted, a);
      if g.fate != MarkRaises {
        assert DoneOf(g.key) in s.done;
        CompleteKept(g, s.accepted, a);
      }
    }
    forall i | 0 <= i < |s.ingests|
      ensures LeavesHash(s.ingests[i].fate) <==> s.ingests[i].key in next.hashes || Repeated(s.ingests, i)
    {
      assert GoodIngest(s.ingests[i], next);
      assert LeavesHash(s.ingests[i].fate) <==> s.ingests[i].key in s.hashes || Repeated(s.ingests, i);
    }
  }

  lemma StoreTracks(s: Store, p: Payload, now: real)
    requires Tracks(s) && DoneOf(KeyOf(p)) !in s.done
    ensures Tracks(AfterStore(s, p, now))
  {
    hide IsAggKey, DoneOf, KeyOf;
    var next := AfterStore(s, p, now);
    forall k, t | IsAggKey(k) && (DoneOf(k) !in s.done || k in next.hashes) && !Internal(t)
      ensures Held(next.hashes, k, t) == Latest(next.accepted, k, t)
    {
      LatestSnoc(s.accepted, Accepted(KeyOf(p), p.fragment), k, t);
      assert Held(s.hashes, k, t) == Latest(s.accepted, k, t);
    }
  }

  lemma StoreKeeps(s: Store, p: Payload, now: real)
    requires Good(s) && DoneOf(KeyOf(p)) !in s.done
    ensures Good(AfterStore(s, p, now))
  {
    StoredKey(p);
    StoreKeepsIngests(s, p, now);
    StoreTracks(s, p, now);
    hide Tracks, Waits, GoodIngests, IsAggKey, KeyOf;
  }

  // ---------------------------------------------------------------------
  // Finalizing keeps the store good
  // ---------------------------------------------------------------------

  /** The hash of a window that was ingested still holds fragments. */
  lemma IngestedHasFragments(s: Store, i: nat)
    requires Good(s) && i < |s.ingests| && s.ingests[i].key in s.hashes
    ensures HasFragments(s.hashes[s.ingests[i].key])
  {
    var g := s.ingests[i];
    assert GoodIngest(g, s);
    var n :| 0 <= n <= |s.accepted| && Complete(g, s.accepted[..n]);
    var f := g.fragments[0];
    assert f in g.fragments;
    LatestPersists(s.accepted, n, g.key, f.objectType);
    assert Held(s.hashes, g.key, f.objectType) == Latest(s.accepted, g.key, f.objectType);
    assert f.objectType in s.hashes[g.key];
  }

  /** A window without fragments to ingest loses nothing by the cleanup. */
  lemma CleanupKeeps(s: Store, key: string, fate: Fate)
    requires Good(s) && key in s.hashes && !HasFragments(s.hashes[key])
    ensures Good(AfterCleanup(s, key, fate))
  {
    forall i | 0 <= i < |s.ingests| ensures s.ingests[i].key != key {
      if s.ingests[i].key in s.hashes {
        IngestedHasFragments(s, i);
      }
    }
    var next := AfterCleanup(s, key, fate);
    assert GoodKeys(next);
    assert Tracks(next) by {
      hide IsAggKey, DoneOf;
      forall k, t | IsAggKey(k) && (DoneOf(k) !in s.done || k in next.hashes) && !Internal(t)
        ensures Held(next.hashes, k, t) == Latest(s.accepted, k, t)
      {
        assert Held(s.hashes, k, t) == Latest(s.accepted, k, t);
      }
    }
    assert GoodIngests(next) && Waits(next) by {
      CleanupKeepsIngests(s, next, key);
    }
  }

  lemma CleanupKeepsIngests(s: Store, next: Store, key: string)
    requires GoodIngests(s) && Waits(s) && forall i :: 0 <= i < |s.ingests| ==> s.ingests[i].key != key
    requires next.ingests == s.ingests && next.done == s.done && next.accepted == s.accepted
    requires next.hashes == s.hashes || next.hashes == s.hashes - {key}
    ensures GoodIngests(next) && Waits(next)
  {
    hide IsAggKey, DoneOf, ParseOf, WasComplete, Complete;
    forall i | 0 <= i < |s.ingests| ensures GoodIngest(s.ingests[i], next) {
      assert GoodIngest(s.ingests[i], s);
    }
  }

  lemma DrainedIsComplete(s: Store, g: Ingest)
    requires Good(s) && g.key in s.hashes && Lists(g.fragments, s.hashes[g.key]) && g.fragments != []
    ensures Complete(g, s.accepted) && WasComplete(g, s.accepted)
  {
    hide GoodIngests, Waits, DoneOf, IsAggKey;
    assert IsAggKey(g.key);
    forall f ensures f in g.fragments <==> !Internal(f.objectType) && Latest(s.accepted, g.key, f.objectType) == Some(f) {
      if !Internal(f.objectType) {
        assert Held(s.hashes, g.key, f.objectType) == Latest(s.accepted, g.key, f.objectType);
      }
    }
    assert s.accepted[..|s.accepted|] == s.accepted;
  }

  lemma RepeatedSnoc(ingests: seq<Ingest>, g: Ingest, i: nat)
    requires i < |ingests|
    ensures Repeated(ingests + [g], i) <==> Repeated(ingests, i) || ingests[i].key == g.key
    ensures !Repeated(ingests + [g], |ingests|)
  {
    var more := ingests + [g];
    assert more[|ingests|] == g;
    if Repeated(ingests, i) {
      var j :| i < j < |ingests| && ingests[j].key == ingests[i].key;
      assert more[j].key == more[i].key;
    }
    if Repeated(more, i) {
      var j :| i < j < |more| && more[j].key == more[i].key;
      assert j < |ingests| ==> ingests[j].key == ingests[i].key;
    }
  }

  lemma IngestKeepsWaits(s: Store, g: Ingest)
    requires Waits(s) && g.key in s.hashes && g.fate != IngestRaises
    ensures Waits(AfterIngest(s, g))
  {
    hide DoneOf, Repeated;
    var next := AfterIngest(s, g);
    forall i | 0 <= i < |next.ingests|
      ensures LeavesHash(next.ingests[i].fate) <==> next.ingests[i].key in next.hashes || Repeated(next.ingests, i)
    {
      if i < |s.ingests| {
        RepeatedSnoc(s.ingests, g, i);
        assert LeavesHash(s.ingests[i].fate) <==> s.ingests[i].key in s.hashes || Repeated(s.ingests, i);
      } else {
        NotYetRepeated(s.ingests, g);
      }
    }
  }

  lemma NotYetRepeated(ingests: seq<Ingest>, g: Ingest)
    ensures !Repeated(ingests + [g], |ingests|)
  {
  }

  lemma IngestKeepsIngests(s: Store, g: Ingest)
    requires GoodIngests(s) && IsAggKey(g.key) && g.window == ParseOf(g.key) && g.fate != IngestRaises
    requires Complete(g, s.accepted) && WasComplete(g, s.accepted)
    ensures GoodIngests(AfterIngest(s, g))
  {
    hide IsAggKey, DoneOf, ParseOf, Complete, WasComplete;
    var next := AfterIngest(s, g);
    forall i | 0 <= i < |next.ingests| ensures GoodIngest(next.ingests[i], next) {
      assert i < |s.ingests| ==> GoodIngest(s.ingests[i], s);
    }
    assert forall x :: x in next.ingests <==> x in s.ingests || x == g;
    assert next.done == DoneMarkers(next.ingests);
  }

  lemma IngestTracks(s: Store, g: Ingest)
    requires Tracks(s) && IsAggKey(g.key)
    ensures Tracks(AfterIngest(s, g))
  {
    hide IsAggKey, DoneOf;
    var next := AfterIngest(s, g);
    forall k, t | IsAggKey(k) && (DoneOf(k) !in next.done || k in next.hashes) && !Internal(t)
      ensures Held(next.hashes, k, t) == Latest(s.accepted, k, t)
    {
      assert Held(s.hashes, k, t) == Latest(s.accepted, k, t);
    }
  }

  lemma IngestKeeps(s: Store, g: Ingest)
    requires Good(s) && g.key in s.hashes && g.window == ParseOf(g.key) && g.fate != IngestRaises
    requires Lists(g.fragments, s.hashes[g.key]) && g.fragments != []
    ensures Good(AfterIngest(s, g))
  {
    DrainedIsComplete(s, g);
    IngestKeepsIngests(s, g);
    IngestKeepsWaits(s, g);
    IngestTracks(s, g);
    hide Tracks, Waits, GoodIngests, IsAggKey, Complete, Lists;
  }

  // ---------------------------------------------------------------------
  // What one pass does
  // ---------------------------------------------------------------------

  /** Where the finalization of each window would end in this pass. */
  type Fates = string -> Fate

  /** The window has been quiet for long enough. */
  predicate Ready(s: Store, key: string, now: real) {
    key in s.active && key in s.hashes && UPDATED_AT in s.hashes[key] && s.hashes[key][UPDATED_AT].Stamp?
    && now - s.hashes[key][UPDATED_AT].at >= QUIET_SECONDS
  }

  /** The finalization raises nothing; without fragments there is nothing to ingest or mark. */
  predicate Succeeds(h: Hash, fate: Fate) {
    if HasFragments(h) then fate == Completes else fate != DeleteRaises && fate != RemoveRaises
  }

  /** The hash is deleted. */
  predicate Deletes(h: Hash, fate: Fate) {
    if HasFragments(h) then fate == RemoveRaises || fate == Completes else fate != DeleteRaises
  }

  /** The hash with this fragment under its type, stamped with the time, and everything else as it was. */
  predicate TakesIn(before: Hash, after: Hash, f: Fragment, now: real) {
    && after.Keys == before.Keys + {f.objectType, "_updated_at"}
    && after["_updated_at"] == Stamp(now)
    && (f.objectType != "_updated_at" ==> after[f.objectType] == Frag(f))
    && forall field :: field in before && field != f.objectType && field != "_updated_at" ==> after[field] == before[field]
  }

  /** Its last fragment came at least half a minute ago. */
  ghost predicate Quiet(h: Hash, now: real) {
    exists at :: "_updated_at" in h && h["_updated_at"] == Stamp(at) && now - at >= 30.0
  }

  /** What is scanned: a key of the active set whose window has been quiet. */
  ghost predicate Due(s: Store, key: string, now: real) {
    key in s.active && key in s.hashes && Quiet(s.hashes[key], now)
  }

  lemma DueIff(s: Store, now: real)
    ensures forall key :: Ready(s, key, now) <==> Due(s, key, now)
  {
    forall key ensures Ready(s, key, now) <==> Due(s, key, now) {
      if Ready(s, key, now) {
        assert s.hashes[key]["_updated_at"] == Stamp(s.hashes[key][UPDATED_AT].at);
      }
    }
  }

  /** The ingest of what the window's hash held, with the fate it was given. */
  ghost predicate FromHash(g: Ingest, hashes: map<string, Hash>, fates: Fates) {
    g.key in hashes && IngestOf(g, g.key, hashes[g.key], fates(g.key))
  }

  predicate Finalizes(s: Store, key: string, now: real, fates: Fates) {
    Ready(s, key, now) && Succeeds(s.hashes[key], fates(key))
  }

  predicate Drains(s: Store, key: string, now: real, fates: Fates) {
    Ready(s, key, now) && Deletes(s.hashes[key], fates(key))
  }

  predicate Ingested(s: Store, key: string, now: real, fates: Fates) {
    Ready(s, key, now) && HasFragments(s.hashes[key]) && fates(key) != IngestRaises
  }

  /** The windows of a set that this pass finalizes, deletes and ingests. */
  function FinalizedOf(s: Store, keys: set<string>, now: real, fates: Fates): set<string> {
    set k | k in keys && Finalizes(s, k, now, fates)
  }

  function DrainedOf(s: Store, keys: set<string>, now: real, fates: Fates): set<string> {
    set k | k in keys && Drains(s, k, now, fates)
  }

  function IngestedOf(s: Store, keys: set<string>, now: real, fates: Fates): set<string> {
    set k | k in keys && Ingested(s, k, now, fates)
  }

  /** The keys that stay in the active set: their hash exists and was not finalized. */
  function StillActive(s: Store, keys: set<string>, now: real, fates: Fates): set<string> {
    set k | k in keys && k in s.hashes && !Finalizes(s, k, now, fates)
  }

  class Aggregator {
    var seen: set<string>
    var hashes: map<string, Hash>
    var active: set<string>
    var done: set<string>
    var ingests: seq<Ingest>
    ghost var accepted: seq<Accepted>

    ghost function View(): Store
      reads this
    {
      Store(hashes, active, done, ingests, accepted)
    }

    ghost predicate Valid()
      reads this
    {
      Good(View())
    }

    constructor ()
      ensures Valid() && seen == {} && View() == Store(map[], {}, {}, [], [])
    {
      seen, hashes, active, done, ingests, accepted := {}, map[], {}, {}, [], [];
    }

    /** receive_bucket once the body is parsed: the event-id guard, then the store. */
    method ReceiveBucket(p: Payload, now: real) returns (reply: Reply)
      requires Valid()
      modifies this`seen, this`hashes, this`active, this`accepted
      ensures Valid()
      ensures reply == if p.eventId in old(seen) then Duplicate
                       else if DoneKey(p.serial, p.camera, p.iso) in done then LateDiscarded else Stored
      ensures seen == old(seen) + {p.eventId}
      ensures View() == if reply == Stored then AfterStore(old(View()), p, now) else old(View())
    {
      if p.eventId in seen {
        return Duplicate;
      }
      seen := seen + {p.eventId};
      reply := StoreFragment(p, now);
    }

    method StoreFragment(p: Payload, now: real) returns (reply: Reply)
      requires Valid()
      modifies this`hashes, this`active, this`accepted
      ensures Valid()
      ensures reply == if DoneKey(p.serial, p.camera, p.iso) in done then LateDiscarded else Stored
      ensures View() == if reply == Stored then AfterStore(old(View()), p, now) else old(View())
      ensures reply == Stored ==> KeyOf(p) in active && KeyOf(p) in hashes && hashes - {KeyOf(p)} == old(hashes) - {KeyOf(p)}
      ensures reply == Stored ==> TakesIn(if KeyOf(p) in old(hashes) then old(hashes)[KeyOf(p)] else map[], hashes[KeyOf(p)], p.fragment, now)
    {
      hide Good;
      if DoneKey(p.serial, p.camera, p.iso) in done {
        return LateDiscarded;
      }
      StoredKey(p);
      StoreKeeps(View(), p, now);
      var key := AggKey(p.serial, p.camera, p.iso);
      var h := if key in hashes then hashes[key] else map[];
      h := h[p.fragment.objectType := Frag(p.fragment)];
      h := h[UPDATED_AT := Stamp(now)];
      hashes := hashes[key := h];
      active := active + {key};
      accepted := accepted + [Accepted(key, p.fragment)];
      return Stored;
    }

    /** Transform, ingest, mark done, clean up; false when one of these raises. */
    method FinalizeOne(key: string, fate: Fate) returns (ok: bool)
      requires Valid() && key in hashes
      modifies this`hashes, this`active, this`done, this`ingests
      ensures Valid() && ok == Succeeds(old(hashes)[key], fate)
      ensures KeyFinalized(old(View()), View(), key, fate)
    {
      hide Good, IngestDone, AfterCleanup, AfterIngest, Lists;
      KnownHash(View(), key);
      var fragments := ReadFragments(hashes[key]);
      if fragments == [] {
        CleanupKeeps(View(), key, fate);
        ok := Cleanup(key, fate);
        return;
      }
      if fate == IngestRaises {
        return false;
      }
      ok := IngestWindow(key, fragments, fate);
    }

    /** The ingest, and what follows it. */
    method IngestWindow(key: string, fragments: seq<Fragment>, fate: Fate) returns (ok: bool)
      requires Valid() && key in hashes && Lists(fragments, hashes[key]) && fragments != [] && fate != IngestRaises
      modifies this`hashes, this`active, this`done, this`ingests
      ensures Valid() && ok == (fate == Completes) && IngestDone(old(View()), View(), key, fate)
    {
      hide Good, Parse, ParseOf, Split, DoneOf, Lists, IsAggKey;
      KnownHash(View(), key);
      ParsedKey(key);
      var window := Parse(key);
      IngestKeeps(View(), Ingest(key, window, fragments, fate));
      ingests := ingests + [Ingest(key, window, fragments, fate)];
      if fate == MarkRaises {
        return false;
      }
      done := done + {DoneKey(window.serial, window.camera, window.iso)};
      ok := Cleanup(key, fate);
    }

    /** DELETE and SREM; false when one raises. */
    method Cleanup(key: string, fate: Fate) returns (ok: bool)
      modifies this`hashes, this`active
      ensures View() == AfterCleanup(old(View()), key, fate) && ok == (fate != DeleteRaises && fate != RemoveRaises)
    {
      if fate == DeleteRaises {
        return false;
      }
      hashes := hashes - {key};
      if fate == RemoveRaises {
        return false;
      }
      active := active - {key};
      return true;
    }

    /**
     One pass of the finalizer over the active set, in any order.  A window that is ready is
     ingested unless that raises, and goes as far as its calls succeed; the rest stays as it is.
     */
    method ScanAndFinalize(now: real, fates: Fates) returns (finalized: nat)
      requires Valid()
      modifies this`hashes, this`active, this`done, this`ingests
      ensures Valid()
      ensures hashes == old(hashes) - DrainedOf(old(View()), old(active), now, fates)
      ensures active == StillActive(old(View()), old(active), now, fates)
      ensures old(ingests) <= ingests
      ensures KeysOf(ingests[|old(ingests)|..]) == IngestedOf(old(View()), old(active), now, fates)
      ensures finalized == |FinalizedOf(old(View()), old(active), now, fates)|
      ensures forall g :: g in ingests[|old(ingests)|..] ==> FromHash(g, old(hashes), fates)
      ensures forall key :: key in KeysOf(ingests[|old(ingests)|..]) <==>
        old(Due(View(), key, now)) && HasFragments(old(hashes)[key]) && fates(key) != IngestRaises
      ensures forall key :: key in old(hashes) ==> (key !in hashes <==> old(Due(View(), key, now)) && Deletes(old(hashes)[key], fates(key)))
      ensures forall key :: key in old(active) ==> (key !in active <==> key in old(hashes) ==> old(Due(View(), key, now)) && Succeeds(old(hashes)[key], fates(key)))
    {
      hide Good, Progress, Ready, Quiet, Succeeds, Deletes, HasFragments, FromHash;
      DueIff(View(), now);
      finalized := 0;
      ProgressStart(View(), now, fates);
      if active == {} {
        ProgressEnd(View(), View(), 0, now, fates);
        return;
      }
      ghost var s := View();
      var todo := active;
      while todo != {}
        invariant Valid()
        invariant todo <= active
        invariant Progress(s, View(), todo, finalized, now, fates)
      {
        var key :| key in todo;
        ghost var t := View();
        var ok := ScanKey(key, now, fates);
        ProgressStep(s, t, View(), todo, key, finalized, ok, now, fates);
        if ok {
          finalized := finalized + 1;
        }
        todo := todo - {key};
      }
      ProgressEnd(s, View(), finalized, now, fates);
    }

    /** One key of the scan; true when it was finalized. */
    method ScanKey(key: string, now: real, fates: Fates) returns (ok: bool)
      requires Valid() && key in active
      modifies this`hashes, this`active, this`done, this`ingests
      ensures Valid()
      ensures KeyScanned(old(View()), View(), key, ok, now, fates)
    {
      if key in hashes {
        KnownHash(View(), key);
      }
      if key !in hashes || UPDATED_AT !in hashes[key] {
        active := active - {key};
        return false;
      }
      if hashes[key][UPDATED_AT].Stamp? && now - hashes[key][UPDATED_AT].at < QUIET_SECONDS {
        return false;
      }
      hide Good, KeyScanned, KeyFinalized;
      ghost var t := View();
      ok := FinalizeOne(key, fates(key));
      FinalizedIsScanned(t, View(), key, now, fates);
    }
  }

  /**
   What finalizing a window changes: without fragments only the cleanup, with them nothing if the
   ingest raises, and otherwise the ingest of exactly these fragments and what follows it.
   */
  ghost predicate KeyFinalized(t: Store, u: Store, key: string, fate: Fate) {
    key in t.hashes &&
    if !HasFragments(t.hashes[key]) then u == AfterCleanup(t, key, fate)
    else if fate == IngestRaises then u == t
    else IngestDone(t, u, key, fate)
  }

  ghost predicate IngestDone(t: Store, u: Store, key: string, fate: Fate)
    requires key in t.hashes
  {
    |u.ingests| == |t.ingests| + 1 && IngestOf(u.ingests[|t.ingests|], key, t.hashes[key], fate)
    && u == AfterIngest(t, u.ingests[|t.ingests|])
  }

  /** g is the ingest of the fragments of h. */
  ghost predicate IngestOf(g: Ingest, key: string, h: Hash, fate: Fate) {
    g.key == key && Lists(g.fragments, h) && g.fate == fate
  }

  lemma FinalizedIsScanned(t: Store, u: Store, key: string, now: real, fates: Fates)
    requires Ready(t, key, now) && KeyFinalized(t, u, key, fates(key))
    ensures KeyScanned(t, u, key, Succeeds(t.hashes[key], fates(key)), now, fates)
  {
    hide HasFragments, Lists;
  }

  lemma KnownHash(s: Store, key: string)
    requires Good(s) && key in s.hashes
    ensures IsAggKey(key) && GoodHash(s.hashes[key])
  {
  }

  // ---------------------------------------------------------------------
  // The scan, key by key
  // ---------------------------------------------------------------------

  /** What scanning one key changes. */
  ghost predicate KeyScanned(t: Store, u: Store, key: string, ok: bool, now: real, fates: Fates) {
    && ok == Finalizes(t, key, now, fates)
    && u.hashes == t.hashes - Only(Drains(t, key, now, fates), key)
    && u.active == t.active - Only(key !in t.hashes || ok, key)
    && t.ingests <= u.ingests && |u.ingests| <= |t.ingests| + 1
    && (|u.ingests| == |t.ingests| + 1 <==> Ingested(t, key, now, fates))
    && (|u.ingests| == |t.ingests| + 1 ==> u.ingests[|t.ingests|].key == key && FromHash(u.ingests[|t.ingests|], t.hashes, fates))
  }

  /** The keys outside todo are scanned. */
  ghost predicate Progress(s: Store, t: Store, todo: set<string>, finalized: nat, now: real, fates: Fates) {
    var scanned := s.active - todo;
    && todo <= s.active
    && TableProgress(s, t, todo, DrainedOf(s, scanned, now, fates), StillActive(s, scanned, now, fates))
    && finalized == |FinalizedOf(s, scanned, now, fates)|
    && IngestProgress(s, t, IngestedOf(s, scanned, now, fates), fates)
  }

  ghost predicate TableProgress(s: Store, t: Store, todo: set<string>, drained: set<string>, still: set<string>) {
    t.hashes == s.hashes - drained && t.active == todo + still
  }

  ghost predicate IngestProgress(s: Store, t: Store, ingested: set<string>, fates: Fates) {
    && s.ingests <= t.ingests && KeysOf(t.ingests[|s.ingests|..]) == ingested
    && forall g :: g in t.ingests[|s.ingests|..] ==> FromHash(g, s.hashes, fates)
  }

  lemma ProgressStart(s: Store, now: real, fates: Fates)
    ensures Progress(s, s, s.active, 0, now, fates)
  {
    assert s.active - s.active == {};
    assert s.ingests[|s.ingests|..] == [];
  }

  lemma ProgressEnd(s: Store, t: Store, finalized: nat, now: real, fates: Fates)
    requires Progress(s, t, {}, finalized, now, fates)
    ensures t.hashes == s.hashes - DrainedOf(s, s.active, now, fates)
    ensures t.active == StillActive(s, s.active, now, fates)
    ensures s.ingests <= t.ingests
    ensures KeysOf(t.ingests[|s.ingests|..]) == IngestedOf(s, s.active, now, fates)
    ensures finalized == |FinalizedOf(s, s.active, now, fates)|
    ensures forall g :: g in t.ingests[|s.ingests|..] ==> FromHash(g, s.hashes, fates)
  {
    assert s.active - {} == s.active;
    hide DrainedOf, StillActive, IngestedOf, FinalizedOf, KeysOf;
    assert {} + StillActive(s, s.active, now, fates) == StillActive(s, s.active, now, fates);
  }

  /** What becomes of a window depends on its own hash alone. */
  lemma ScanIsLocal(s: Store, t: Store, key: string, now: real, fates: Fates)
    requires key in s.active && key in t.active && (key in s.hashes <==> key in t.hashes)
    requires key in s.hashes ==> s.hashes[key] == t.hashes[key]
    ensures Finalizes(s, key, now, fates) == Finalizes(t, key, now, fates)
    ensures Drains(s, key, now, fates) == Drains(t, key, now, fates)
    ensures Ingested(s, key, now, fates) == Ingested(t, key, now, fates)
    ensures Finalizes(s, key, now, fates) ==> key in s.hashes
  {
  }

  function Only(yes: bool, key: string): set<string> {
    if yes then {key} else {}
  }

  lemma ScanStep(s: Store, keys: set<string>, key: string, now: real, fates: Fates)
    requires key !in keys
    ensures FinalizedOf(s, keys + {key}, now, fates) == FinalizedOf(s, keys, now, fates) + Only(Finalizes(s, key, now, fates), key)
    ensures DrainedOf(s, keys + {key}, now, fates) == DrainedOf(s, keys, now, fates) + Only(Drains(s, key, now, fates), key)
    ensures IngestedOf(s, keys + {key}, now, fates) == IngestedOf(s, keys, now, fates) + Only(Ingested(s, key, now, fates), key)
    ensures StillActive(s, keys + {key}, now, fates)
      == StillActive(s, keys, now, fates) + Only(key in s.hashes && !Finalizes(s, key, now, fates), key)
    ensures key !in FinalizedOf(s, keys, now, fates) && key !in DrainedOf(s, keys, now, fates) && key !in StillActive(s, keys, now, fates)
  {
  }

  lemma ProgressStep(s: Store, t: Store, u: Store, todo: set<string>, key: string, n: nat, ok: bool, now: real, fates: Fates)
    requires Progress(s, t, todo, n, now, fates) && key in todo
    requires KeyScanned(t, u, key, ok, now, fates)
    ensures Progress(s, u, todo - {key}, if ok then n + 1 else n, now, fates)
  {
    hide Finalizes, Drains, Ingested, KeysOf, DrainedOf, IngestedOf, FinalizedOf, StillActive, TableProgress, IngestProgress, Only;
    var scanned := s.active - todo;
    assert s.active - (todo - {key}) == scanned + {key};
    ScanStep(s, scanned, key, now, fates);
    NotYetScanned(s, t, todo, DrainedOf(s, scanned, now, fates), StillActive(s, scanned, now, fates), key);
    ScanIsLocal(s, t, key, now, fates);
    IngestMore(s, t, u, IngestedOf(s, scanned, now, fates), key, Ingested(t, key, now, fates), fates);
    TableMore(s, t, u, todo, DrainedOf(s, scanned, now, fates), StillActive(s, scanned, now, fates), key,
      Drains(t, key, now, fates), key in s.hashes && !ok);
    CountMore(FinalizedOf(s, scanned, now, fates), ok, key);
  }

  lemma CountMore(finalized: set<string>, ok: bool, key: string)
    requires key !in finalized
    ensures |finalized + Only(ok, key)| == if ok then |finalized| + 1 else |finalized|
  {
  }

  lemma NotYetScanned(s: Store, t: Store, todo: set<string>, drained: set<string>, still: set<string>, key: string)
    requires TableProgress(s, t, todo, drained, still) && key in todo && key !in drained
    ensures key in t.active && (key in s.hashes <==> key in t.hashes)
    ensures key in s.hashes ==> s.hashes[key] == t.hashes[key]
  {
  }

  lemma TableMore(s: Store, t: Store, u: Store, todo: set<string>, drained: set<string>, still: set<string>, key: string,
                  drains: bool, stays: bool)
    requires TableProgress(s, t, todo, drained, still) && key in todo && key !in still
    requires u.hashes == t.hashes - Only(drains, key) && u.active == t.active - Only(!stays, key)
    ensures TableProgress(s, u, todo - {key}, drained + Only(drains, key), still + Only(stays, key))
  {
  }

  lemma IngestMore(s: Store, t: Store, u: Store, ingested: set<string>, key: string, more: bool, fates: Fates)
    requires IngestProgress(s, t, ingested, fates) && (key in t.hashes ==> key in s.hashes && s.hashes[key] == t.hashes[key])
    requires t.ingests <= u.ingests && |u.ingests| <= |t.ingests| + 1
    requires more <==> |u.ingests| == |t.ingests| + 1
    requires more ==> u.ingests[|t.ingests|].key == key && FromHash(u.ingests[|t.ingests|], t.hashes, fates)
    ensures IngestProgress(s, u, ingested + Only(more, key), fates)
  {
    hide IngestOf;
    var n := |s.ingests|;
    if more {
      assert u.ingests[n..] == t.ingests[n..] + [u.ingests[|t.ingests|]];
    } else {
      assert u.ingests == t.ingests;
    }
  }
}
