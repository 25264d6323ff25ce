/**
 What every run of the pipeline keeps.

 The invariant has a part about the shared tables and a part about each worker.
 A step of one worker (or of the webhook or reclaimer) meets the other workers
 through Rely alone: the tables only grow, captions never change, and nobody
 gains a lease for a worker but its own claim.
 */
module PipelineProofs {
  import opened Options
  import opened Runs
  import opened Pipeline

  // ---------------------------------------------------------------------
  // The invariant
  // ---------------------------------------------------------------------

  ghost predicate Logged(db: Db, key: JobKey, state: JobState) {
    exists actor :: HistoryRow(key, state, actor) in db.history
  }

  /** Every key that Redis holds, or is about to hold, has a committed job row. */
  ghost predicate QueuesDurable(s: State) {
    && s.streams <= s.db.jobs.Keys
    && s.outbox <= s.db.jobs.Keys
    && (forall row :: row in s.snapshot ==> row.key in s.db.jobs)
  }

  ghost predicate DlqDurable(s: State) {
    forall k :: k in s.dlq || k in s.dlqOutbox ==> Logged(s.db, k, FailedTerminal)
  }

  ghost predicate ReleaseLogged(db: Db, w: Worker, key: JobKey) {
    exists state :: HistoryRow(key, state, ByWorker(w)) in db.history
  }

  ghost predicate AcksDurable(s: State) {
    forall w, k :: (w, k) in s.acked ==> ReleaseLogged(s.db, w, k)
  }

  ghost predicate Chained(db: Db) {
    forall i :: Captioned(db, i) ==> CaptionEmbedJob(i) in db.jobs && ImageEmbedJob(i) in db.jobs
  }

  /** The Qdrant point of an image, when there is one, carries the row's caption. */
  ghost predicate PointMatches(s: State, i: ImageId) {
    i in s.points ==> Captioned(s.db, i) && s.db.images[i].captionText == Some(s.points[i])
  }

  ghost predicate PointsMatch(s: State) {
    && (forall i :: i in s.points ==> PointMatches(s, i))
    && (forall i :: i in s.db.images && s.db.images[i].embedded ==> i in s.points)
  }

  ghost predicate TablesOk(s: State) {
    QueuesDurable(s) && DlqDurable(s) && AcksDurable(s) && Chained(s.db) && PointsMatch(s)
  }

  /** While w owns the caption job it works on, nobody else has captioned the image. */
  ghost predicate CaptionFence(s: State, w: Worker, key: JobKey) {
    key.CaptionJob? && (Owns(s.db, w, key) ==> !Captioned(s.db, key.image))
  }

  ghost predicate WriteOk(s: State, w: Worker, key: JobKey, write: Write) {
    match write
    case NoWrite => true
    case MarkFailed(i) => key == CaptionJob(i) && CaptionFence(s, w, key)
    case SetCaption(i, _) => key == CaptionJob(i) && CaptionFence(s, w, key)
    case SetEmbedded(i) => key == CaptionEmbedJob(i) && i in s.points
  }

  ghost predicate PcOk(s: State, w: Worker, pc: Pc) {
    (pc.Idle? || pc.key in s.db.jobs) &&
    match pc
    case Idle => true
    case Claimed(_) => true
    case Loaded(_, _) => true
    case Captioning(key, _) => CaptionFence(s, w, key)
    case Embedding(key, _, text) =>
      key.CaptionEmbedJob? && Captioned(s.db, key.image) && s.db.images[key.image].captionText == Some(text)
    case Upserted(key, _) => key.CaptionEmbedJob? && key.image in s.points
    case Releasing(key, _, write) => WriteOk(s, w, key, write)
    case PostCommit(key, outcome, todo) =>
      HistoryRow(key, outcome, ByWorker(w)) in s.db.history && (forall k :: k in todo ==> k in s.db.jobs)
    case Acking(key, outcome) => HistoryRow(key, outcome, ByWorker(w)) in s.db.history
  }

  ghost predicate WorkerOk(s: State, w: Worker) {
    PcOk(s, w, PcOf(s, w))
  }

  ghost predicate Inv(s: State) {
    TablesOk(s) && forall w :: WorkerOk(s, w)
  }

  // ---------------------------------------------------------------------
  // Rely: what w may assume of everybody else's steps
  // ---------------------------------------------------------------------

  /** Rows and points are never removed, and a caption that succeeded never changes. */
  ghost predicate Grows(s: State, t: State) {
    && s.db.jobs.Keys <= t.db.jobs.Keys
    && s.db.history <= t.db.history
    && s.points.Keys <= t.points.Keys
    && (forall i :: Captioned(s.db, i) ==>
          Captioned(t.db, i) && t.db.images[i].captionText == s.db.images[i].captionText)
  }

  ghost predicate LeaseRely(s: State, t: State, w: Worker) {
    forall k :: Owns(t.db, w, k) ==>
      Owns(s.db, w, k) && (k.CaptionJob? && Captioned(t.db, k.image) ==> Captioned(s.db, k.image))
  }

  ghost predicate Rely(s: State, t: State, w: Worker) {
    PcOf(t, w) == PcOf(s, w) && Grows(s, t) && LeaseRely(s, t, w)
  }

  lemma RelyKeepsWorker(s: State, t: State, w: Worker)
    requires WorkerOk(s, w) && Rely(s, t, w)
    ensures WorkerOk(t, w)
  {
  }

  // ---------------------------------------------------------------------
  // One step keeps the invariant
  // ---------------------------------------------------------------------

  lemma OthersKept(s: State, t: State)
    requires Inv(s)
    requires forall w :: Rely(s, t, w)
    ensures forall w :: WorkerOk(t, w)
  {
    forall w ensures WorkerOk(t, w) {
      assert Rely(s, t, w);
      RelyKeepsWorker(s, t, w);
    }
  }

  lemma TablesGrow(s: State, t: State)
    requires TablesOk(s) && Grows(s, t)
    requires t.points == s.points && t.streams == s.streams && t.dlq == s.dlq && t.acked == s.acked
    requires t.outbox == s.outbox && t.dlqOutbox == s.dlqOutbox && t.snapshot == s.snapshot
    requires forall i :: Captioned(t.db, i) ==> Captioned(s.db, i)
    requires forall i :: i in t.db.images && t.db.images[i].embedded ==> i in s.db.images && s.db.images[i].embedded
    ensures TablesOk(t)
  {
  }

  lemma ReceiveKeeps(s: State, i: ImageId, eventful: bool)
    requires Inv(s)
    ensures Inv(ReceiveStep(s, i, eventful)) && Grows(s, ReceiveStep(s, i, eventful))
  {
    var t := ReceiveStep(s, i, eventful);
    if i !in s.db.images {
      assert forall j :: Captioned(t.db, j) <==> Captioned(s.db, j);
      assert forall w, k :: Owns(t.db, w, k) ==> Owns(s.db, w, k);
      OthersKept(s, t);
      TablesGrow(s, t.(outbox := s.outbox));
    }
  }

  lemma ScanKeeps(s: State, expired: set<JobKey>)
    requires Inv(s)
    ensures Inv(ScanStep(s, expired)) && Grows(s, ScanStep(s, expired))
  {
    var t := ScanStep(s, expired);
    OthersKept(s, t);
    TablesGrow(s, t.(snapshot := s.snapshot));
    forall row | row in t.snapshot ensures row.key in t.db.jobs {
      if row !in s.snapshot {
        assert row.key in s.db.jobs;
      }
    }
  }

  lemma ReclaimKeeps(s: State, row: ScanRow)
    requires Inv(s)
    ensures Inv(ReclaimStep(s, row)) && Grows(s, ReclaimStep(s, row))
  {
    var t := ReclaimStep(s, row);
    if row in s.snapshot && row.key in s.db.jobs {
      assert t.db.images == s.db.images;
      assert forall w, k :: Owns(t.db, w, k) ==> Owns(s.db, w, k);
      OthersKept(s, t);
      TablesGrow(s, t.(outbox := s.outbox, dlqOutbox := s.dlqOutbox, snapshot := s.snapshot));
      assert HistoryRow(row.key, ReclaimState(row), ByReclaimer) in t.db.history;
      forall k | k in t.dlq || k in t.dlqOutbox ensures Logged(t.db, k, FailedTerminal) {
        if k !in s.dlq && k !in s.dlqOutbox {
          assert k == row.key;
        } else {
          assert Logged(s.db, k, FailedTerminal);
        }
      }
      assert forall r :: r in t.snapshot ==> r in s.snapshot;
    }
  }

  /** A step of w that keeps the tables and everybody's rely. */
  ghost predicate GoodWork(s: State, t: State, w: Worker) {
    && TablesOk(t) && Grows(s, t) && WorkerOk(t, w)
    && (forall v :: v != w ==> Rely(s, t, v))
  }

  lemma GoodWorkKeeps(s: State, t: State, w: Worker)
    requires Inv(s) && GoodWork(s, t, w)
    ensures Inv(t)
  {
    forall v ensures WorkerOk(t, v) {
      if v != w {
        assert Rely(s, t, v);
        RelyKeepsWorker(s, t, v);
      }
    }
  }

  /** Moving a program counter changes nothing anybody else can see. */
  lemma MoveIsGood(s: State, w: Worker, pc: Pc)
    requires Inv(s) && PcOk(s, w, pc)
    ensures GoodWork(s, Goto(s, w, pc), w)
  {
  }

  lemma ClaimIsGood(s: State, w: Worker, key: JobKey)
    requires Inv(s) && PcOf(s, w).Idle?
    ensures GoodWork(s, ClaimStep(s, w, key), w)
  {
    var t := ClaimStep(s, w, key);
    if t != s {
      assert PcOf(t, w) == Claimed(key);
      TablesGrow(s, t);
      forall v | v != w ensures Rely(s, t, v) {
        ClaimRely(s, w, key, v);
      }
      hide Rely, TablesOk;
    }
  }

  lemma ClaimRely(s: State, w: Worker, key: JobKey, v: Worker)
    requires PcOf(s, w).Idle? && v != w
    ensures Rely(s, ClaimStep(s, w, key), v)
  {
  }

  lemma FetchRowIsGood(s: State, w: Worker, key: JobKey, exhausted: bool)
    requires Inv(s) && PcOf(s, w) == Loaded(key, exhausted)
    ensures GoodWork(s, FetchRowStep(s, w, key, exhausted), w)
  {
    hide GoodWork;
    var t := FetchRowStep(s, w, key, exhausted);
    if key.ImageEmbedJob? || key.EventJob? {
      assert Goto(s, w, PcOf(s, w)) == s by { assert s.workers[w := s.workers[w]] == s.workers; }
      assert WorkerOk(s, w);
      MoveIsGood(s, w, PcOf(s, w));
    } else {
      FetchedPcOk(s, w, key, exhausted);
      MoveIsGood(s, w, PcOf(t, w));
    }
  }

  lemma FetchedPcOk(s: State, w: Worker, key: JobKey, exhausted: bool)
    requires Inv(s) && PcOf(s, w) == Loaded(key, exhausted) && !key.ImageEmbedJob? && !key.EventJob?
    ensures PcOk(s, w, PcOf(FetchRowStep(s, w, key, exhausted), w))
  {
    assert WorkerOk(s, w);
  }

  lemma CaptionIsGood(s: State, w: Worker, key: JobKey, exhausted: bool, reply: CaptionReply)
    requires Inv(s) && PcOf(s, w) == Captioning(key, exhausted)
    ensures GoodWork(s, CaptionStep(s, w, key, reply), w)
  {
    assert WorkerOk(s, w);
    var pc := PcOf(CaptionStep(s, w, key, reply), w);
    assert PcOk(s, w, pc);
    MoveIsGood(s, w, pc);
  }

  lemma UpsertIsGood(s: State, w: Worker)
    requires Inv(s) && PcOf(s, w).Embedding?
    ensures GoodWork(s, WorkerStep(s, w, UpsertPoint), w)
  {
    var pc := PcOf(s, w);
    assert WorkerOk(s, w);
    var t := WorkerStep(s, w, UpsertPoint);
    assert PcOf(t, w) == Upserted(pc.key, pc.exhausted);
    TablesGrow(s, t.(points := s.points));
    forall i | i in t.points ensures PointMatches(t, i) {
      if i != pc.key.image {
        assert PointMatches(s, i);
      }
    }
  }

  /** A release that commits: the caption changes only under the caller's own lease. */
  lemma CommitGrows(s: State, w: Worker, key: JobKey, outcome: JobState, write: Write)
    requires Inv(s) && Owns(s.db, w, key) && WriteOk(s, w, key, write)
    ensures var t := s.(db := CommitRelease(s.db, w, key, outcome, write));
      && Grows(s, t)
      && (forall i :: Captioned(t.db, i) && !Captioned(s.db, i) ==> write.SetCaption? && write.image == i)
      && (forall v, k :: Owns(t.db, v, k) ==> Owns(s.db, v, k) && k != key)
  {
  }

  lemma CommitTables(s: State, w: Worker, key: JobKey, outcome: JobState, write: Write)
    requires Inv(s) && Owns(s.db, w, key) && WriteOk(s, w, key, write)
    ensures TablesOk(s.(db := CommitRelease(s.db, w, key, outcome, write)))
  {
  }

  /** A committed release leaves the others what they rely on. */
  lemma CommitRely(s: State, w: Worker, key: JobKey, outcome: JobState, write: Write, pc: Pc, v: Worker)
    requires Inv(s) && Owns(s.db, w, key) && WriteOk(s, w, key, write) && v != w
    ensures Rely(s, Goto(s.(db := CommitRelease(s.db, w, key, outcome, write)), w, pc), v)
  {
    CommitGrows(s, w, key, outcome, write);
    hide CommitRelease, Inv;
  }

  lemma CommitIsGood(s: State, w: Worker)
    requires Inv(s) && PcOf(s, w).Releasing? && Owns(s.db, w, PcOf(s, w).key)
    ensures GoodWork(s, ReleaseStep(s, w, PcOf(s, w), true), w)
  {
    var pc := PcOf(s, w);
    assert WorkerOk(s, w);
    var m := s.(db := CommitRelease(s.db, w, pc.key, pc.outcome, pc.write));
    var next := PostCommit(pc.key, pc.outcome, ChainTodo(s.db.jobs, pc.write));
    var t := Goto(m, w, next);
    CommitGrows(s, w, pc.key, pc.outcome, pc.write);
    CommitTables(s, w, pc.key, pc.outcome, pc.write);
    TablesGrow(m, t);
    forall v | v != w ensures Rely(s, t, v) {
      CommitRely(s, w, pc.key, pc.outcome, pc.write, next, v);
    }
    hide Rely, LeaseRely, TablesOk, Inv;
  }

  lemma ReleaseIsGood(s: State, w: Worker, valid: bool)
    requires Inv(s) && PcOf(s, w).Releasing?
    ensures GoodWork(s, WorkerStep(s, w, Release(valid)), w)
  {
    hide GoodWork, Inv;
    if Owns(s.db, w, PcOf(s, w).key) && valid {
      CommitIsGood(s, w);
    } else {
      MoveIsGood(s, w, Idle);
    }
  }

  lemma EnqueueIsGood(s: State, w: Worker, ok: bool)
    requires Inv(s) && PcOf(s, w).PostCommit? && PcOf(s, w).todo != []
    ensures GoodWork(s, WorkerStep(s, w, EnqueueNext(ok)), w)
  {
    var pc := PcOf(s, w);
    assert WorkerOk(s, w);
    assert pc.todo[0] in pc.todo && forall k :: k in pc.todo[1..] ==> k in pc.todo;
    var t := WorkerStep(s, w, EnqueueNext(ok));
    TablesGrow(s, t.(streams := s.streams));
  }

  lemma DlqIsGood(s: State, w: Worker, ok: bool)
    requires Inv(s) && PcOf(s, w).PostCommit? && PcOf(s, w).todo == []
    ensures GoodWork(s, WorkerStep(s, w, EnqueueDlq(ok)), w)
  {
    var pc := PcOf(s, w);
    assert WorkerOk(s, w);
    var t := WorkerStep(s, w, EnqueueDlq(ok));
    TablesGrow(s, t.(dlq := s.dlq));
    forall k | k in t.dlq || k in t.dlqOutbox ensures Logged(t.db, k, FailedTerminal) {
      if k in s.dlq || k in s.dlqOutbox {
        assert Logged(s.db, k, FailedTerminal);
      } else {
        assert HistoryRow(k, FailedTerminal, ByWorker(w)) in t.db.history;
      }
    }
  }

  lemma AckIsGood(s: State, w: Worker)
    requires Inv(s) && PcOf(s, w).Acking?
    ensures GoodWork(s, WorkerStep(s, w, Ack), w)
  {
    var pc := PcOf(s, w);
    assert WorkerOk(s, w);
    var t := WorkerStep(s, w, Ack);
    TablesGrow(s, t.(acked := s.acked));
    forall v, k | (v, k) in t.acked ensures ReleaseLogged(t.db, v, k) {
      if (v, k) in s.acked {
        assert ReleaseLogged(s.db, v, k);
      } else {
        assert HistoryRow(k, pc.outcome, ByWorker(v)) in t.db.history;
      }
    }
  }

  lemma WorkIsGood(s: State, w: Worker, op: WorkerOp)
    requires Inv(s)
    ensures GoodWork(s, WorkerStep(s, w, op), w)
  {
    var pc := PcOf(s, w);
    assert WorkerOk(s, w);
    var t := WorkerStep(s, w, op);
    if t == s {
    } else {
      match op
      case Claim(key) => ClaimIsGood(s, w, key);
      case FetchRow => FetchRowIsGood(s, w, pc.key, pc.exhausted);
      case Caption(reply) => CaptionIsGood(s, w, pc.key, pc.exhausted, reply);
      case UpsertPoint => UpsertIsGood(s, w);
      case Release(valid) => ReleaseIsGood(s, w, valid);
      case EnqueueNext(ok) => EnqueueIsGood(s, w, ok);
      case EnqueueDlq(ok) => DlqIsGood(s, w, ok);
      case Ack => AckIsGood(s, w);
      case LoadJob => MoveIsGood(s, w, PcOf(t, w));
      case MarkEmbedded => MoveIsGood(s, w, PcOf(t, w));
      case OtherExecutor(_) => MoveIsGood(s, w, PcOf(t, w));
      case Raise => MoveIsGood(s, w, PcOf(t, w));
      case Crash => MoveIsGood(s, w, Idle);
    }
  }

  lemma StepKeeps(s: State, a: Action)
    requires Inv(s)
    ensures Inv(Step(s, a)) && Grows(s, Step(s, a))
  {
    hide Inv, Grows, WorkerStep, ReceiveStep, ScanStep, ReclaimStep;
    match a
    case ReceiveImage(i, eventful) => ReceiveKeeps(s, i, eventful);
    case Scan(expired) => ScanKeeps(s, expired);
    case Reclaim(row) => ReclaimKeeps(s, row);
    case Work(w, op) =>
      WorkIsGood(s, w, op);
      GoodWorkKeeps(s, WorkerStep(s, w, op), w);
    case FlushOutbox(k) => FlushKeeps(s, k);
    case FlushDlqOutbox(k) => FlushDlqKeeps(s, k);
  }

  lemma FlushKeeps(s: State, k: JobKey)
    requires Inv(s)
    ensures Inv(Step(s, FlushOutbox(k))) && Grows(s, Step(s, FlushOutbox(k)))
  {
    var t := Step(s, FlushOutbox(k));
    OthersKept(s, t);
    TablesGrow(s, t.(outbox := s.outbox, streams := s.streams));
  }

  lemma FlushDlqKeeps(s: State, k: JobKey)
    requires Inv(s)
    ensures Inv(Step(s, FlushDlqOutbox(k))) && Grows(s, Step(s, FlushDlqOutbox(k)))
  {
    OthersKept(s, Step(s, FlushDlqOutbox(k)));
  }

  // ---------------------------------------------------------------------
  // Every run
  // ---------------------------------------------------------------------

  lemma {:induction false} RunKeeps(s: State, actions: seq<Action>)
    requires Inv(s)
    ensures Inv(Run(s, actions)) && Grows(s, Run(s, actions))
    decreases |actions|
  {
    if actions != [] {
      StepKeeps(s, actions[0]);
      RunKeeps(Step(s, actions[0]), actions[1..]);
    }
  }

  lemma InitialInv()
    ensures Inv(INITIAL)
  {
  }
}
