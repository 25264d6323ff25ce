/** The promises of the enrichment pipeline, over every run from the empty state. */
module PipelineTheorems {
  import opened Options
  import opened Runs
  import opened Pipeline
  import opened PipelineProofs

  lemma ReachableInv(actions: seq<Action>)
    ensures Inv(Run(INITIAL, actions))
  {
    InitialInv();
    RunKeeps(INITIAL, actions);
  }

  /**
   An image whose caption embedding is marked done is captioned, and its Qdrant
   point carries exactly the caption of the row, however many stale workers
   upserted points on the way.
   */
  lemma EmbeddedPointMatchesRow(actions: seq<Action>, i: ImageId)
    requires var s := Run(INITIAL, actions); i in s.db.images && s.db.images[i].embedded
    ensures var s := Run(INITIAL, actions);
      && s.db.images[i].captionStatus == CaptionSuccess
      && i in s.points
      && s.db.images[i].captionText == Some(s.points[i])
  {
    ReachableInv(actions);
    assert PointMatches(Run(INITIAL, actions), i);
  }

  /** A caption is written once: whatever happens later, row status and text stay. */
  lemma CaptionIsWriteOnce(before: seq<Action>, after: seq<Action>, i: ImageId)
    requires Captioned(Run(INITIAL, before).db, i)
    ensures Captioned(Run(INITIAL, before + after).db, i)
    ensures Run(INITIAL, before + after).db.images[i].captionText ==
            Run(INITIAL, before).db.images[i].captionText
  {
    ReachableInv(before);
    RunKeeps(Run(INITIAL, before), after);
    RunAppend(Step, INITIAL, before, after);
  }

  /** A captioned image always has both downstream job rows. */
  lemma CaptionedImagesAreChained(actions: seq<Action>, i: ImageId)
    requires Captioned(Run(INITIAL, actions).db, i)
    ensures CaptionEmbedJob(i) in Run(INITIAL, actions).db.jobs
    ensures ImageEmbedJob(i) in Run(INITIAL, actions).db.jobs
  {
    ReachableInv(actions);
  }

  /** Row and jobs of an image are committed together, and event jobs are for alerts and anomalies only. */
  ghost predicate Received(db: Db) {
    && (forall i :: i in db.images ==> CaptionJob(i) in db.jobs)
    && (forall i :: EventJob(i) in db.jobs <==> i in db.images && db.images[i].eventful)
  }

  lemma StepReceived(s: State, a: Action)
    requires Received(s.db)
    ensures Received(Step(s, a).db)
  {
    hide ScanStep, WorkerStep;
    match a
    case ReceiveImage(_, _) =>
    case FlushOutbox(_) =>
    case FlushDlqOutbox(_) =>
    case Scan(expired) => ScanKeepsDb(s, expired);
    case Reclaim(_) =>
    case Work(w, op) =>
      if op.Claim? {
        ClaimReceived(s, w, op);
      } else if op.Release? {
        ReleaseReceived(s, w, op);
      } else {
        WorkerWrites(s, w, op);
      }
  }

  lemma ClaimReceived(s: State, w: Worker, op: WorkerOp)
    requires Received(s.db) && op.Claim?
    ensures Received(WorkerStep(s, w, op).db)
  {
  }

  lemma ReleaseReceived(s: State, w: Worker, op: WorkerOp)
    requires Received(s.db) && op.Release?
    ensures Received(WorkerStep(s, w, op).db)
  {
  }

  lemma {:induction false} RunReceived(s: State, actions: seq<Action>)
    requires Received(s.db)
    ensures Received(Run(s, actions).db)
    decreases |actions|
  {
    hide Step, Received;
    if actions != [] {
      StepReceived(s, actions[0]);
      RunReceived(Step(s, actions[0]), actions[1..]);
    }
  }

  /** In every run, a stored image has its caption job row, and an event job row exactly for an alert or anomaly. */
  lemma ReceivedImagesHaveJobs(actions: seq<Action>, i: ImageId)
    ensures var db := Run(INITIAL, actions).db;
      && (i in db.images ==> CaptionJob(i) in db.jobs)
      && (EventJob(i) in db.jobs <==> i in db.images && db.images[i].eventful)
  {
    RunReceived(INITIAL, actions);
  }

  /**
   Postgres before Redis: a key on a job stream has a committed row, a key on a
   DLQ has a committed failed_terminal transition, and a worker has ACKed a job
   only if its own release of that job is committed.
   */
  lemma DurableBeforeVisible(actions: seq<Action>)
    ensures var s := Run(INITIAL, actions);
      && (forall k :: k in s.streams ==> k in s.db.jobs)
      && (forall k :: k in s.dlq ==> Logged(s.db, k, FailedTerminal))
      && (forall w, k :: (w, k) in s.acked ==> ReleaseLogged(s.db, w, k))
  {
    ReachableInv(actions);
  }

  // ---------------------------------------------------------------------
  // Lease fencing
  // ---------------------------------------------------------------------

  /** w is idle, or still before its commit on a job whose lease it no longer holds. */
  predicate Powerless(s: State, w: Worker) {
    var pc := PcOf(s, w);
    pc.Idle? || (!pc.PostCommit? && !pc.Acking? && !Owns(s.db, w, pc.key))
  }

  predicate IsBy(a: Action, w: Worker) {
    a.Work? && a.w == w
  }

  predicate IsClaimBy(a: Action, w: Worker) {
    IsBy(a, w) && a.op.Claim?
  }

  /** Nothing in Postgres and nothing on a stream, DLQ or ACK record differs. */
  predicate SameRecords(s: State, t: State) {
    t.db == s.db && t.streams == s.streams && t.dlq == s.dlq && t.acked == s.acked
  }

  /** Postgres changes only at a claim of a pending job and at a release by the owner. */
  lemma WorkerWrites(s: State, w: Worker, op: WorkerOp)
    requires !op.Claim?
    requires op.Release? && PcOf(s, w).Releasing? ==> !Owns(s.db, w, PcOf(s, w).key)
    ensures WorkerStep(s, w, op).db == s.db
  {
  }

  lemma PowerlessWork(s: State, w: Worker, op: WorkerOp)
    requires Powerless(s, w) && !op.Claim?
    ensures Powerless(WorkerStep(s, w, op), w)
    ensures SameRecords(s, WorkerStep(s, w, op))
  {
  }

  lemma LeaseOnlyByOwnClaim(s: State, v: Worker, op: WorkerOp, w: Worker, k: JobKey)
    requires op.Claim? || op.Release?
    requires !(v == w && op.Claim?) && Owns(WorkerStep(s, v, op).db, w, k)
    ensures Owns(s.db, w, k)
  {
  }

  /** No action but w's own claim puts w's name on a lease. */
  lemma LeaseOnlyByClaim(s: State, a: Action, w: Worker, k: JobKey)
    requires !IsClaimBy(a, w) && Owns(Step(s, a).db, w, k)
    ensures Owns(s.db, w, k)
  {
    hide ScanStep, WorkerStep;
    match a
    case ReceiveImage(_, _) =>
    case FlushOutbox(_) =>
    case FlushDlqOutbox(_) =>
    case Scan(expired) => ScanKeepsDb(s, expired);
    case Reclaim(_) =>
    case Work(v, op) =>
      if op.Claim? || op.Release? {
        LeaseOnlyByOwnClaim(s, v, op, w, k);
      } else {
        WorkerWrites(s, v, op);
      }
  }

  lemma OtherPcKept(s: State, a: Action, w: Worker)
    requires !IsBy(a, w)
    ensures PcOf(Step(s, a), w) == PcOf(s, w)
  {
  }

  lemma PowerlessStep(s: State, a: Action, w: Worker)
    requires Powerless(s, w) && !IsClaimBy(a, w)
    ensures Powerless(Step(s, a), w)
    ensures IsBy(a, w) ==> SameRecords(s, Step(s, a))
  {
    if IsBy(a, w) {
      PowerlessWork(s, w, a.op);
    } else {
      OtherPcKept(s, a, w);
      var pc := PcOf(s, w);
      if !pc.Idle? && Owns(Step(s, a).db, w, pc.key) {
        LeaseOnlyByClaim(s, a, w, pc.key);
      }
    }
  }

  lemma {:induction false} StaysPowerless(s: State, actions: seq<Action>, w: Worker)
    requires Powerless(s, w)
    requires forall i :: 0 <= i < |actions| ==> !IsClaimBy(actions[i], w)
    ensures Powerless(Run(s, actions), w)
    decreases |actions|
  {
    hide Step, Powerless, SameRecords;
    if actions != [] {
      assert !IsClaimBy(actions[0], w);
      PowerlessStep(s, actions[0], w);
      StaysPowerless(Step(s, actions[0]), actions[1..], w);
    }
  }

  /**
   A worker that has lost its lease changes nothing in Postgres, enqueues
   nothing and ACKs nothing until it claims a job again, in any interleaving.
   */
  lemma LostLeaseIsSilent(s: State, actions: seq<Action>, n: nat, w: Worker)
    requires Powerless(s, w) && n < |actions|
    requires forall i :: 0 <= i <= n ==> !IsClaimBy(actions[i], w)
    ensures IsBy(actions[n], w) ==> SameRecords(Run(s, actions[..n]), Run(s, actions[..n + 1]))
  {
    hide Step, Powerless, SameRecords;
    StaysPowerless(s, actions[..n], w);
    PowerlessStep(Run(s, actions[..n]), actions[n], w);
    assert actions[..n + 1] == actions[..n] + [actions[n]];
    RunSnoc(Step, s, actions[..n], actions[n]);
  }

  // ---------------------------------------------------------------------
  // Terminal states
  // ---------------------------------------------------------------------

  predicate Terminal(state: JobState) {
    state == Succeeded || state == FailedTerminal
  }

  /** The reclaimer is about to overwrite k with another state. */
  predicate StaleReclaim(s: State, a: Action, k: JobKey) {
    && a.Reclaim? && a.row in s.snapshot && a.row.key == k && k in s.db.jobs
    && ReclaimState(a.row) != s.db.jobs[k].state
  }

  ghost predicate OwnersLeased(db: Db) {
    forall k :: k in db.jobs && db.jobs[k].owner.Some? ==> db.jobs[k].state == Leased
  }

  lemma StepOwnersLeased(s: State, a: Action)
    requires OwnersLeased(s.db)
    ensures OwnersLeased(Step(s, a).db)
  {
    hide ScanStep, WorkerStep, ReceiveStep, ReclaimStep;
    match a
    case ReceiveImage(i, eventful) => ReceiveOwnersLeased(s, i, eventful);
    case FlushOutbox(_) =>
    case FlushDlqOutbox(_) =>
    case Scan(expired) => ScanKeepsDb(s, expired);
    case Reclaim(row) => ReclaimOwnersLeased(s, row);
    case Work(w, op) =>
      if op.Claim? || op.Release? {
        LeaseOpsOwnersLeased(s, w, op);
      } else {
        WorkerWrites(s, w, op);
      }
  }

  lemma ReceiveOwnersLeased(s: State, i: ImageId, eventful: bool)
    requires OwnersLeased(s.db)
    ensures OwnersLeased(ReceiveStep(s, i, eventful).db)
  {
  }

  lemma ReclaimOwnersLeased(s: State, row: ScanRow)
    requires OwnersLeased(s.db)
    ensures OwnersLeased(ReclaimStep(s, row).db)
  {
  }

  lemma LeaseOpsOwnersLeased(s: State, w: Worker, op: WorkerOp)
    requires OwnersLeased(s.db) && (op.Claim? || op.Release?)
    ensures OwnersLeased(WorkerStep(s, w, op).db)
  {
  }

  lemma ScanKeepsDb(s: State, expired: set<JobKey>)
    ensures ScanStep(s, expired).db == s.db
  {
  }

  lemma {:induction false} RunOwnersLeased(s: State, actions: seq<Action>)
    requires OwnersLeased(s.db)
    ensures OwnersLeased(Run(s, actions).db)
    decreases |actions|
  {
    hide Step, OwnersLeased;
    if actions != [] {
      StepOwnersLeased(s, actions[0]);
      RunOwnersLeased(Step(s, actions[0]), actions[1..]);
    }
  }

  lemma ForeignReleaseKeepsJob(s: State, w: Worker, valid: bool, k: JobKey)
    requires k in s.db.jobs && !Owns(s.db, w, k)
    ensures k in WorkerStep(s, w, Release(valid)).db.jobs
    ensures WorkerStep(s, w, Release(valid)).db.jobs[k] == s.db.jobs[k]
  {
  }

  lemma ReceiveKeepsJob(s: State, i: ImageId, eventful: bool, k: JobKey)
    requires k in s.db.jobs
    ensures k in ReceiveStep(s, i, eventful).db.jobs && ReceiveStep(s, i, eventful).db.jobs[k] == s.db.jobs[k]
  {
  }

  lemma ClaimKeepsJob(s: State, w: Worker, op: WorkerOp, k: JobKey)
    requires op.Claim? && k in s.db.jobs && s.db.jobs[k].state != Pending
    ensures k in WorkerStep(s, w, op).db.jobs && WorkerStep(s, w, op).db.jobs[k] == s.db.jobs[k]
  {
  }

  /**
   A finished job changes state in exactly one way: a reclaimer row selected
   while the job was still leased or waiting is written after it finished.
   */
  lemma TerminalChangesOnlyByStaleReclaim(actions: seq<Action>, a: Action, k: JobKey)
    requires var s := Run(INITIAL, actions); k in s.db.jobs && Terminal(s.db.jobs[k].state)
    ensures var s := Run(INITIAL, actions);
      (k in Step(s, a).db.jobs && Step(s, a).db.jobs[k].state == s.db.jobs[k].state) <==> !StaleReclaim(s, a, k)
  {
    hide Run, ScanStep, ReceiveStep, WorkerStep;
    RunOwnersLeased(INITIAL, actions);
    var s := Run(INITIAL, actions);
    assert s.db.jobs[k].owner.None?;
    match a
    case ReceiveImage(i, eventful) => ReceiveKeepsJob(s, i, eventful, k);
    case FlushOutbox(_) =>
    case FlushDlqOutbox(_) =>
    case Scan(expired) => ScanKeepsDb(s, expired);
    case Reclaim(_) =>
    case Work(w, op) =>
      assert !Owns(s.db, w, k);
      if op.Claim? {
        ClaimKeepsJob(s, w, op, k);
      } else if op.Release? {
        ForeignReleaseKeepsJob(s, w, op.heartbeatValid, k);
      } else {
        WorkerWrites(s, w, op);
      }
  }

  const RECEIVED: seq<Action> :=
    [ReceiveImage(0, false), FlushOutbox(CaptionJob(0)), Work(0, Claim(CaptionJob(0))), Scan({CaptionJob(0)})]

  const CAPTIONED: seq<Action> :=
    [Work(0, LoadJob), Work(0, FetchRow), Work(0, Caption(Parsed(Some("dog")))), Work(0, Release(true))]

  /** Image 0 is in, worker 0 holds its caption job, and the reclaimer has selected that job. */
  const HALFWAY: State :=
    State(Db(map[0 := Image(CaptionPending, None, false, false)],
             map[CaptionJob(0) := Job(Leased, Some(0), 1, 3)], {}),
          map[], {CaptionJob(0)}, {}, {}, {}, {}, multiset{ScanRow(CaptionJob(0), false)},
          map[0 := Claimed(CaptionJob(0))])

  lemma FirstHalf()
    ensures Run(INITIAL, RECEIVED) == HALFWAY
  {
    var s1 := Step(INITIAL, RECEIVED[0]);
    assert s1 == State(Db(map[0 := Image(CaptionPending, None, false, false)], map[CaptionJob(0) := FreshJob()], {}),
                       map[], {}, {}, {}, {CaptionJob(0)}, {}, multiset{}, map[]);
    var s2 := Step(s1, RECEIVED[1]);
    assert s2 == s1.(outbox := {}, streams := {CaptionJob(0)});
    var s3 := Step(s2, RECEIVED[2]);
    assert s3 == HALFWAY.(snapshot := multiset{});
    ScanHalfway();
    UnfoldFour(Step, INITIAL, RECEIVED);
  }

  lemma ScanHalfway()
    ensures Step(HALFWAY.(snapshot := multiset{}), Scan({CaptionJob(0)})) == HALFWAY
  {
    var s := HALFWAY.(snapshot := multiset{});
    var expired := {CaptionJob(0)};
    var hits := set k | k in expired && k in s.db.jobs && Expirable(s.db.jobs[k]) ::
      ScanRow(k, s.db.jobs[k].attempts >= s.db.jobs[k].maxAttempts);
    assert hits == {ScanRow(CaptionJob(0), false)};
  }

  lemma SecondHalf()
    ensures var s := Run(HALFWAY, CAPTIONED);
      && CaptionJob(0) in s.db.jobs && s.db.jobs[CaptionJob(0)].state == Succeeded
      && s.snapshot == HALFWAY.snapshot
  {
    var s1 := Step(HALFWAY, CAPTIONED[0]);
    assert s1 == HALFWAY.(workers := map[0 := Loaded(CaptionJob(0), false)]);
    var s2 := Step(s1, CAPTIONED[1]);
    assert s2 == HALFWAY.(workers := map[0 := Captioning(CaptionJob(0), false)]);
    var s3 := Step(s2, CAPTIONED[2]);
    assert s3 == HALFWAY.(workers := map[0 := Releasing(CaptionJob(0), Succeeded, SetCaption(0, Some("dog")))]);
    var s4 := ReleaseStep(s3, 0, PcOf(s3, 0), true);
    assert Step(s3, CAPTIONED[3]) == s4;
    assert s4.db.jobs[CaptionJob(0)].state == Succeeded;
    UnfoldFour(Step, HALFWAY, CAPTIONED);
  }

  lemma ReopenStep(s: State)
    requires ScanRow(CaptionJob(0), false) in s.snapshot && CaptionJob(0) in s.db.jobs
    ensures var t := Step(s, Reclaim(ScanRow(CaptionJob(0), false)));
      CaptionJob(0) in t.db.jobs && t.db.jobs[CaptionJob(0)].state == Pending
  {
  }

  /**
   The race is real: a caption job that succeeded goes back to pending when the
   reclaimer writes a row it selected before the commit.  The module's promises
   above hold all the same.
   */
  lemma FinishedJobCanReopen()
    ensures exists actions, a ::
      && CaptionJob(0) in Run(INITIAL, actions).db.jobs
      && Run(INITIAL, actions).db.jobs[CaptionJob(0)].state == Succeeded
      && CaptionJob(0) in Step(Run(INITIAL, actions), a).db.jobs
      && Step(Run(INITIAL, actions), a).db.jobs[CaptionJob(0)].state == Pending
  {
    FirstHalf();
    SecondHalf();
    RunAppend(Step, INITIAL, RECEIVED, CAPTIONED);
    var run := RECEIVED + CAPTIONED;
    var a := Reclaim(ScanRow(CaptionJob(0), false));
    ReopenStep(Run(INITIAL, run));
    assert Step(Run(INITIAL, run), a).db.jobs[CaptionJob(0)].state == Pending;
  }
}
