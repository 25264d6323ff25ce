/** What a run of submissions leaves behind: rows, jobs and stream, in closed form. */
module IngestTheorems {
  import opened ColonKeys
  import opened Options
  import opened Ingest

  // ---------------------------------------------------------------------
  // Markers
  // ---------------------------------------------------------------------

  /** Merging keeps the given markers in front and adds exactly the missing ones, each once. */
  lemma {:induction false} MergeMeaning(markers: seq<Marker>, history: seq<Marker>)
    ensures markers <= MergedMarkers(markers, history)
    ensures forall m :: m in MergedMarkers(markers, history) <==> m in markers || m in history
    ensures forall i, j :: |markers| <= j < |MergedMarkers(markers, history)| && 0 <= i < j ==> MergedMarkers(markers, history)[i] != MergedMarkers(markers, history)[j]
    decreases |history|
  {
    if history != [] {
      MergeMeaning(if history[0] in markers then markers else markers + [history[0]], history[1..]);
    }
  }

  /** x occurs in s before any y. */
  ghost predicate FirstBefore(s: seq<Marker>, x: Marker, y: Marker) {
    exists n :: 0 <= n < |s| && s[n] == x && y !in s[..n + 1]
  }

  lemma BeforeInRest(s: seq<Marker>, x: Marker, y: Marker)
    requires s != [] && y != s[0] && FirstBefore(s[1..], x, y)
    ensures FirstBefore(s, x, y)
  {
    var n :| 0 <= n < |s[1..]| && s[1..][n] == x && y !in s[1..][..n + 1];
    assert s[n + 1] == x && s[..n + 2] == [s[0]] + s[1..][..n + 1];
  }

  /** A marker added later is not one of those that were there. */
  lemma AddedIsNew(markers: seq<Marker>, history: seq<Marker>, j: nat)
    requires |markers| <= j < |MergedMarkers(markers, history)|
    ensures MergedMarkers(markers, history)[j] !in markers
  {
    MergeMeaning(markers, history);
    var merged := MergedMarkers(markers, history);
    forall k | 0 <= k < |markers| ensures markers[k] != merged[j] {
      assert merged[k] == markers[k];
    }
  }

  /** The added markers come in the order of the history. */
  lemma {:induction false} MergeOrder(markers: seq<Marker>, history: seq<Marker>, i: nat, j: nat)
    requires |markers| <= i < j < |MergedMarkers(markers, history)|
    ensures FirstBefore(history, MergedMarkers(markers, history)[i], MergedMarkers(markers, history)[j])
    decreases |history|
  {
    hide FirstBefore;
    if history != [] {
      var more, rest := if history[0] in markers then markers else markers + [history[0]], history[1..];
      AddedIsNew(more, rest, j);
      if i < |more| {
        AddedFirst(markers, history, j);
      } else {
        MergeOrder(more, rest, i, j);
        BeforeInRest(history, MergedMarkers(more, rest)[i], MergedMarkers(more, rest)[j]);
      }
    }
  }

  lemma AddedFirst(markers: seq<Marker>, history: seq<Marker>, j: nat)
    requires history != [] && history[0] !in markers && |markers| < j < |MergedMarkers(markers, history)|
    ensures MergedMarkers(markers, history)[|markers|] == history[0]
    ensures FirstBefore(history, history[0], MergedMarkers(markers, history)[j])
  {
    MergeMeaning(markers + [history[0]], history[1..]);
    AddedIsNew(markers + [history[0]], history[1..], j);
    assert history[..1] == [history[0]];
  }

  lemma {:induction false} NothingMissing(markers: seq<Marker>, history: seq<Marker>)
    requires forall m :: m in history ==> m in markers
    ensures MergedMarkers(markers, history) == markers
  {
    if history != [] {
      NothingMissing(markers, history[1..]);
    }
  }

  /** Merging the same history again changes nothing. */
  lemma MergeIsIdempotent(markers: seq<Marker>, history: seq<Marker>)
    ensures MergedMarkers(MergedMarkers(markers, history), history) == MergedMarkers(markers, history)
  {
    MergeMeaning(markers, history);
    NothingMissing(MergedMarkers(markers, history), history);
  }

  // ---------------------------------------------------------------------
  // Closed forms
  // ---------------------------------------------------------------------

  /** The committed submissions for one bucket, in order. */
  function Submissions(calls: seq<Call>, id: BucketId): seq<Request> {
    if calls == [] then []
    else
      var before, last := Submissions(calls[..|calls| - 1], id), calls[|calls| - 1];
      if Committed(last) && last.r.id == id then before + [last.r] else before
  }

  predicate IsLastLate(rs: seq<Request>, n: int) {
    0 <= n < |rs| && rs[n].bucket.late && forall m :: n < m < |rs| ==> !rs[m].bucket.late
  }

  /** b was written by the last late_finalized submission if there was one, otherwise by the first. */
  ghost predicate IsRowOf(rs: seq<Request>, b: Bucket) {
    && rs != []
    && (forall n :: IsLastLate(rs, n) ==> b == Written(rs[n]))
    && ((forall n :: !IsLastLate(rs, n)) ==> b == Written(rs[0]))
  }

  lemma LateBefore(rs: seq<Request>, r: Request, n: int)
    ensures IsLastLate(rs + [r], n) <==> if r.bucket.late then n == |rs| else IsLastLate(rs, n)
  {
    var more := rs + [r];
    assert more[|rs|] == r;
    assert forall m :: 0 <= m < |rs| ==> more[m] == rs[m];
  }

  lemma RowSnoc(rs: seq<Request>, r: Request, b: Bucket)
    requires rs != [] ==> IsRowOf(rs, b)
    ensures IsRowOf(rs + [r], if rs == [] || r.bucket.late then Written(r) else b)
  {
    hide Written;
    forall n ensures IsLastLate(rs + [r], n) <==> if r.bucket.late then n == |rs| else IsLastLate(rs, n) {
      LateBefore(rs, r, n);
    }
    var more := rs + [r];
    assert more[|rs|] == r && forall n :: 0 <= n < |rs| ==> more[n] == rs[n];
    assert r.bucket.late ==> IsLastLate(more, |rs|);
    forall n | IsLastLate(more, n) ensures rs != [] && !r.bucket.late ==> IsLastLate(rs, n) && more[n] == rs[n] {
    }
  }

  /** The row is the closed form of the committed submissions, whatever else happened. */
  lemma {:induction false} RowClosedForm(calls: seq<Call>, id: BucketId)
    ensures id in After(calls).buckets <==> Submissions(calls, id) != []
    ensures id in After(calls).buckets ==> IsRowOf(Submissions(calls, id), After(calls).buckets[id])
  {
    hide Written, NewRows, Queued, IsRowOf;
    if calls != [] {
      var before, last := calls[..|calls| - 1], calls[|calls| - 1];
      RowClosedForm(before, id);
      if Committed(last) && last.r.id == id {
        RowSnoc(Submissions(before, id), last.r, if id in After(before).buckets then After(before).buckets[id] else Written(last.r));
      }
    }
  }

  /** A submission that wrote the bucket: the first one, or a late_finalized one. */
  predicate Effective(rs: seq<Request>, n: int) {
    0 <= n < |rs| && (n == 0 || rs[n].bucket.late)
  }

  ghost predicate WroteMarkers(rs: seq<Request>) {
    exists n :: Effective(rs, n) && Written(rs[n]).markers != []
  }

  ghost predicate HasSummaryJob(calls: seq<Call>, key: string) {
    exists n :: 0 <= n < |calls| && Committed(calls[n]) && SummaryKeyOf(calls[n].r) == key
  }

  lemma {:induction false} SummaryJobs(calls: seq<Call>, key: string)
    requires forall id :: key != EventKey(id)
    ensures key in After(calls).jobs <==> HasSummaryJob(calls, key)
  {
    if calls != [] {
      var before, last := calls[..|calls| - 1], calls[|calls| - 1];
      SummaryJobs(before, key);
      if HasSummaryJob(before, key) {
        var n :| 0 <= n < |before| && Committed(before[n]) && SummaryKeyOf(before[n].r) == key;
        assert calls[n] == before[n];
      }
      if HasSummaryJob(calls, key) && !(Committed(last) && SummaryKeyOf(last.r) == key) {
        var n :| 0 <= n < |calls| && Committed(calls[n]) && SummaryKeyOf(calls[n].r) == key;
        assert calls[n] == before[n];
      }
    }
  }

  // ---------------------------------------------------------------------
  // Which triples share a summary job
  // ---------------------------------------------------------------------

  /** Two triples share one job row exactly when the bucket is the same and the pairs read the same. */
  lemma SameSummaryKeyIff(id: Digest, p: string, u: string, id': Digest, q: string, v: string)
    ensures SummaryKey(id, p, u) == SummaryKey(id', q, v) <==> id == id' && SamePair(p, u, q, v)
  {
    var head := "bucket_summary:";
    var a, b := SummaryKey(id, p, u), SummaryKey(id', q, v);
    assert a == head + id + ":" + (p + ":" + u) && b == head + id' + ":" + (q + ":" + v);
    assert a[|head|..][..64] == id && b[|head|..][..64] == id';
    assert a[|head| + 65..] == p + ":" + u && b[|head| + 65..] == q + ":" + v;
    JoinedIff(p, u, q, v);
  }

  /** Two profiles can share a job row, for some prompts, exactly when one is the other or starts it up to a colon. */
  lemma ProfilesCanShareIff(id: Digest, p: string, q: string)
    ensures (exists u, v :: SummaryKey(id, p, u) == SummaryKey(id, q, v)) <==> p == q || p + ":" <= q || q + ":" <= p
  {
    if exists u, v :: SummaryKey(id, p, u) == SummaryKey(id, q, v) {
      var u, v :| SummaryKey(id, p, u) == SummaryKey(id, q, v);
      SameSummaryKeyIff(id, p, u, id, q, v);
    }
    if p + ":" <= q {
      SameSummaryKeyIff(id, p, q[|p| + 1..] + ":" + "", id, q, "");
    } else if q + ":" <= p {
      SameSummaryKeyIff(id, p, "", id, q, p[|q| + 1..] + ":" + "");
    } else if p == q {
      assert SummaryKey(id, p, "") == SummaryKey(id, q, "");
    }
  }

  /** A committed submission of this bucket whose pair reads the same. */
  ghost predicate SubmittedAlike(calls: seq<Call>, id: BucketId, profile: string, prompt: string) {
    exists n :: 0 <= n < |calls| && Alike(calls[n], id, profile, prompt)
  }

  predicate Alike(c: Call, id: BucketId, profile: string, prompt: string) {
    Committed(c) && c.r.id == id && SamePair(profile, prompt, c.r.profile, c.r.prompt)
  }

  /** A (bucket, profile, prompt) triple has its summary job row exactly when one that reads the same was committed. */
  lemma SummaryJobsIff(calls: seq<Call>, id: Digest, profile: string, prompt: string)
    ensures SummaryKey(id, profile, prompt) in After(calls).jobs <==> SubmittedAlike(calls, id, profile, prompt)
  {
    hide SummaryKey, SamePair, After;
    forall other ensures SummaryKey(id, profile, prompt) != EventKey(other) {
      KindsDiffer(id, profile, prompt, other);
    }
    SummaryJobs(calls, SummaryKey(id, profile, prompt));
    forall n | 0 <= n < |calls| && Committed(calls[n])
      ensures SummaryKeyOf(calls[n].r) == SummaryKey(id, profile, prompt) <==> Alike(calls[n], id, profile, prompt)
    {
      var r := calls[n].r;
      SameSummaryKeyIff(id, profile, prompt, r.recomputedId, r.profile, r.prompt);
    }
  }

  lemma EventKeyInjective(a: BucketId, b: BucketId)
    ensures EventKey(a) == EventKey(b) <==> a == b
  {
    assert EventKey(a)[21..] == a && EventKey(b)[21..] == b;
  }

  lemma WroteSnoc(rs: seq<Request>, r: Request)
    ensures WroteMarkers(rs + [r]) <==> WroteMarkers(rs) || ((rs == [] || r.bucket.late) && Written(r).markers != [])
  {
    hide Written;
    var more := rs + [r];
    assert more[|rs|] == r && forall m :: 0 <= m < |rs| ==> more[m] == rs[m];
    if WroteMarkers(rs) {
      var n :| Effective(rs, n) && Written(rs[n]).markers != [];
      assert Effective(more, n) && Written(more[n]).markers != [];
    }
    if (rs == [] || r.bucket.late) && Written(r).markers != [] {
      assert Effective(more, |rs|) && Written(more[|rs|]).markers != [];
    }
    if WroteMarkers(more) {
      var n :| Effective(more, n) && Written(more[n]).markers != [];
      assert n < |rs| ==> Effective(rs, n) && Written(rs[n]).markers != [];
    }
  }

  /** There is an event_produce row for a bucket exactly when a submission that wrote it carried markers. */
  lemma {:induction false} EventJobsIff(calls: seq<Call>, id: BucketId)
    ensures EventKey(id) in After(calls).jobs <==> WroteMarkers(Submissions(calls, id))
  {
    hide Written, WroteMarkers, IsRowOf, SummaryKey, EventKey, Queued;
    if calls == [] {
      assert !WroteMarkers(Submissions(calls, id)) by { NothingWritten(); }
    } else {
      var before, last := calls[..|calls| - 1], calls[|calls| - 1];
      EventJobsIff(before, id);
      RowClosedForm(before, id);
      KindsDiffer(last.r.id, last.r.profile, last.r.prompt, id);
      EventKeyInjective(last.r.id, id);
      WroteSnoc(Submissions(before, id), last.r);
    }
  }

  lemma NothingWritten()
    ensures !WroteMarkers([])
  {
  }

  /** The n-th call inserted this job row. */
  predicate InsertedBy(calls: seq<Call>, n: nat, key: string)
    requires n < |calls|
  {
    key !in After(calls[..n]).jobs && key in After(calls[..n + 1]).jobs
  }

  ghost predicate SentByInserter(calls: seq<Call>, key: string) {
    exists n :: 0 <= n < |calls| && InsertedBy(calls, n, key) && Sent(calls[n].r, calls[n].fate, key)
  }

  lemma InsertedPrefix(calls: seq<Call>, m: nat, n: nat, key: string)
    requires n < m <= |calls|
    ensures InsertedBy(calls[..m], n, key) <==> InsertedBy(calls, n, key)
  {
    assert calls[..m][..n] == calls[..n] && calls[..m][..n + 1] == calls[..n + 1];
  }

  /** What one call adds to the stream. */
  lemma StreamGrows(db: Db, c: Call, key: string)
    ensures key in Step(db, c).stream <==> key in db.stream || (key !in db.jobs && key in Step(db, c).jobs && Sent(c.r, c.fate, key))
  {
    hide SummaryKey, EventKey, Written;
    KindsDiffer(c.r.id, c.r.profile, c.r.prompt, c.r.id);
  }

  /** A job is enqueued exactly when the call that inserted its row got that enqueue through. */
  lemma {:induction false} StreamIff(calls: seq<Call>, key: string)
    ensures key in After(calls).stream <==> SentByInserter(calls, key)
  {
    hide Step, Sent;
    if calls != [] {
      var m := |calls| - 1;
      StreamIff(calls[..m], key);
      StreamGrows(After(calls[..m]), calls[m], key);
      assert calls[..m + 1] == calls;
      forall n | 0 <= n < m ensures InsertedBy(calls[..m], n, key) <==> InsertedBy(calls, n, key) {
        InsertedPrefix(calls, m, n, key);
      }
      assert InsertedBy(calls, m, key) <==> key !in After(calls[..m]).jobs && key in After(calls).jobs;
    }
  }

  /** A call that succeeds says Inserted for the first committed submission of a bucket, then LateUpdate for the late ones. */
  lemma ReplyIff(calls: seq<Call>, r: Request)
    requires r.id == r.recomputedId
    ensures ActionOf(After(calls), r) == Inserted <==> forall n :: 0 <= n < |calls| && Committed(calls[n]) ==> calls[n].r.id != r.id
    ensures ActionOf(After(calls), r) == Duplicate <==> ActionOf(After(calls), r) != Inserted && !r.bucket.late
    ensures SummaryKeyOf(r) in After(calls).jobs <==> SubmittedAlike(calls, r.id, r.profile, r.prompt)
  {
    hide After, SummaryKey;
    RowClosedForm(calls, r.id);
    SubmissionsIff(calls, r.id);
    SummaryJobsIff(calls, r.recomputedId, r.profile, r.prompt);
  }

  lemma {:induction false} SubmissionsIff(calls: seq<Call>, id: BucketId)
    ensures Submissions(calls, id) == [] <==> forall n :: 0 <= n < |calls| && Committed(calls[n]) ==> calls[n].r.id != id
  {
    if calls != [] {
      SubmissionsIff(calls[..|calls| - 1], id);
    }
  }

  /** Only committed job rows are enqueued, and each at most once. */
  lemma {:induction false} QueuedAreDurable(calls: seq<Call>)
    ensures forall key :: key in After(calls).stream ==> key in After(calls).jobs
    ensures forall i, j :: 0 <= i < j < |After(calls).stream| ==> After(calls).stream[i] != After(calls).stream[j]
  {
    hide Written, SummaryKey, EventKey;
    if calls != [] {
      var before, last := calls[..|calls| - 1], calls[|calls| - 1];
      QueuedAreDurable(before);
      KindsDiffer(last.r.id, last.r.profile, last.r.prompt, last.r.id);
    }
  }
}
