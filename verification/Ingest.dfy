/**
 ingest_bucket: one transaction upserts the bucket and inserts its jobs; the streams
 are written after the commit, for new job rows only.
 */
module Ingest {
  import opened Options

  type BucketId = string

  datatype Marker = Marker(eventType: string, ts: string)

  datatype Bucket = Bucket(late: bool, score: real, payload: string, markers: seq<Marker>)

  predicate IsDigest(s: string) {
    |s| == 64 && forall i :: 0 <= i < |s| ==> '0' <= s[i] <= '9' || 'a' <= s[i] <= 'f'
  }

  /** What generate_bucket_id returns: a SHA-256 digest in hexadecimal. */
  type Digest = s: string | IsDigest(s) witness seq(64, i => '0')

  /** A validated submission; history holds the markers derived from the camera's past. */
  datatype Request = Request(
    id: BucketId,
    recomputedId: Digest,
    bucket: Bucket,
    history: seq<Marker>,
    profile: string,
    prompt: string)

  /** How far the call gets: it raises before the commit, or the two enqueues succeed or not. */
  datatype Fate = Raises | Commits(summaryQueued: bool, eventQueued: bool)

  datatype Call = Call(r: Request, fate: Fate)

  datatype BucketAction = Inserted | LateUpdate | Duplicate

  datatype Reply = Mismatch | Failed | Done(action: BucketAction, duplicateJob: bool)

  datatype Db = Db(buckets: map<BucketId, Bucket>, jobs: set<string>, stream: seq<string>)

  function SummaryKey(id: BucketId, profile: string, prompt: string): string {
    "bucket_summary:" + id + ":" + profile + ":" + prompt
  }

  function EventKey(id: BucketId): string {
    "event_produce:bucket:" + id
  }

  function SummaryKeyOf(r: Request): string {
    SummaryKey(r.id, r.profile, r.prompt)
  }

  /** The history markers that are not yet present, appended in order. */
  function MergedMarkers(markers: seq<Marker>, history: seq<Marker>): seq<Marker>
    decreases |history|
  {
    if history == [] then markers
    else MergedMarkers(if history[0] in markers then markers else markers + [history[0]], history[1..])
  }

  /** The bucket as it is written. */
  function Written(r: Request): Bucket {
    r.bucket.(markers := MergedMarkers(r.bucket.markers, r.history))
  }

  /** The call commits its transaction. */
  predicate Committed(c: Call) {
    c.r.id == c.r.recomputedId && c.fate.Commits?
  }

  function ActionOf(db: Db, r: Request): BucketAction {
    if r.id !in db.buckets then Inserted else if r.bucket.late then LateUpdate else Duplicate
  }

  /** The call wants an event_produce job. */
  predicate WantsEvents(db: Db, r: Request) {
    Written(r).markers != [] && ActionOf(db, r) != Duplicate
  }

  function NewRows(db: Db, r: Request): set<string> {
    {SummaryKeyOf(r)} + if WantsEvents(db, r) then {EventKey(r.id)} else {}
  }

  function Queued(db: Db, r: Request, fate: Fate): seq<string>
    requires fate.Commits?
  {
    (if SummaryKeyOf(r) !in db.jobs && fate.summaryQueued then [SummaryKeyOf(r)] else [])
    + if WantsEvents(db, r) && EventKey(r.id) !in db.jobs && fate.eventQueued then [EventKey(r.id)] else []
  }

  /** The enqueue of this job, one of the two a call makes, succeeds. */
  predicate Sent(r: Request, fate: Fate, key: string) {
    fate.Commits? && if key == SummaryKeyOf(r) then fate.summaryQueued else fate.eventQueued
  }

  function Step(db: Db, c: Call): Db {
    if !Committed(c) then db
    else
      Db(if ActionOf(db, c.r) == Duplicate then db.buckets else db.buckets[c.r.id := Written(c.r)],
         db.jobs + NewRows(db, c.r),
         db.stream + Queued(db, c.r, c.fate))
  }

  const EMPTY: Db := Db(map[], {}, [])

  function After(calls: seq<Call>): Db {
    if calls == [] then EMPTY else Step(After(calls[..|calls| - 1]), calls[|calls| - 1])
  }

  class Store {
    var buckets: map<BucketId, Bucket>
    var jobs: set<string>
    var stream: seq<string>

    ghost function View(): Db
      reads this
    {
      Db(buckets, jobs, stream)
    }

    constructor ()
      ensures View() == EMPTY
    {
      buckets, jobs, stream := map[], {}, [];
    }

    /** The call wrote this bucket: the submission's fields, its markers followed by the history's. */
    ghost predicate Wrote(r: Request)
      reads this
    {
      && r.id in buckets && buckets[r.id].late == r.bucket.late && buckets[r.id].score == r.bucket.score
      && buckets[r.id].payload == r.bucket.payload && buckets[r.id].markers == MergedMarkers(r.bucket.markers, r.history)
    }

    /** Steps 2 to 7. */
    method IngestBucket(r: Request, fate: Fate) returns (reply: Reply)
      modifies this
      ensures View() == Step(old(View()), Call(r, fate))
      ensures reply == Mismatch <==> r.id != r.recomputedId
      ensures reply == Failed <==> r.id == r.recomputedId && fate.Raises?
      ensures !reply.Done? ==> View() == old(View())
      ensures reply.Done? ==> (reply.action == Inserted <==> r.id !in old(buckets))
      ensures reply.Done? ==> (reply.action == LateUpdate <==> r.id in old(buckets) && r.bucket.late)
      ensures reply.Done? && reply.action == Duplicate ==> buckets == old(buckets)
      ensures reply.Done? && reply.action != Duplicate ==> Wrote(r) && buckets - {r.id} == old(buckets) - {r.id}
      ensures reply.Done? ==> SummaryKeyOf(r) in jobs && (reply.duplicateJob <==> SummaryKeyOf(r) in old(jobs))
      ensures reply.Done? ==> old(stream) <= stream
      ensures reply.Done? ==> forall key :: key in stream[|old(stream)|..] <==> key in jobs - old(jobs) && Sent(r, fate, key)
    {
      hide SummaryKey, EventKey, MergedMarkers;
      if r.id != r.recomputedId {
        return Mismatch;
      }
      var markers := MergeMarkers(r.bucket.markers, r.history);
      if fate.Raises? {
        return Failed;
      }
      var action := UpsertBucket(r, markers);
      var newSummary, newEvent := InsertJobs(r, markers != [] && action != Duplicate);
      EnqueueNew(r, fate, newSummary, newEvent);
      KindsDiffer(r.id, r.profile, r.prompt, r.id);
      return Done(action, !newSummary);
    }

    /** Step 4: first write wins, except that late_finalized overwrites. */
    method UpsertBucket(r: Request, markers: seq<Marker>) returns (action: BucketAction)
      modifies this`buckets
      ensures action == Inserted <==> r.id !in old(buckets)
      ensures action == LateUpdate <==> r.id in old(buckets) && r.bucket.late
      ensures buckets == if action == Duplicate then old(buckets) else old(buckets)[r.id := r.bucket.(markers := markers)]
    {
      action := Duplicate;
      if r.id !in buckets {
        buckets := buckets[r.id := r.bucket.(markers := markers)];
        action := Inserted;
      } else if r.bucket.late {
        buckets := buckets[r.id := r.bucket.(markers := markers)];
        action := LateUpdate;
      }
    }

    /** Step 5. */
    method InsertJobs(r: Request, withEvents: bool) returns (newSummary: bool, newEvent: bool)
      modifies this`jobs
      ensures jobs == old(jobs) + {SummaryKeyOf(r)} + if withEvents then {EventKey(r.id)} else {}
      ensures newSummary <==> SummaryKeyOf(r) !in old(jobs)
      ensures newEvent <==> withEvents && EventKey(r.id) !in old(jobs)
    {
      newSummary := SummaryKeyOf(r) !in jobs;
      jobs := jobs + {SummaryKeyOf(r)};
      newEvent := false;
      if withEvents {
        KindsDiffer(r.id, r.profile, r.prompt, r.id);
        newEvent := EventKey(r.id) !in jobs;
        jobs := jobs + {EventKey(r.id)};
      }
    }

    /** Step 7, after the commit. */
    method EnqueueNew(r: Request, fate: Fate, newSummary: bool, newEvent: bool)
      requires fate.Commits?
      modifies this`stream
      ensures stream == old(stream) + (if newSummary && fate.summaryQueued then [SummaryKeyOf(r)] else [])
        + if newEvent && fate.eventQueued then [EventKey(r.id)] else []
      ensures old(stream) <= stream
      ensures forall key :: key in stream[|old(stream)|..] <==>
        (newSummary && fate.summaryQueued && key == SummaryKeyOf(r)) || (newEvent && fate.eventQueued && key == EventKey(r.id))
    {
      hide SummaryKey, EventKey;
      if newSummary && fate.summaryQueued {
        stream := stream + [SummaryKeyOf(r)];
      }
      ghost var first := if newSummary && fate.summaryQueued then [SummaryKeyOf(r)] else [];
      ghost var second := if newEvent && fate.eventQueued then [EventKey(r.id)] else [];
      if newEvent && fate.eventQueued {
        stream := stream + [EventKey(r.id)];
      }
      assert stream[|old(stream)|..] == first + second;
    }

    /** The loop of step 3b, with its set of keys already present. */
    static method MergeMarkers(markers: seq<Marker>, history: seq<Marker>) returns (merged: seq<Marker>)
      ensures merged == MergedMarkers(markers, history)
    {
      merged := markers;
      var existing := set m | m in markers;
      for n := 0 to |history|
        invariant forall m :: m in existing <==> m in merged
        invariant MergedMarkers(merged, history[n..]) == MergedMarkers(markers, history)
      {
        assert history[n..][1..] == history[n + 1..];
        if history[n] !in existing {
          merged := merged + [history[n]];
          existing := existing + {history[n]};
        }
      }
    }
  }

  lemma KindsDiffer(id: BucketId, profile: string, prompt: string, other: BucketId)
    ensures SummaryKey(id, profile, prompt) != EventKey(other)
  {
    assert SummaryKey(id, profile, prompt)[0] == 'b' && EventKey(other)[0] == 'e';
  }
}
