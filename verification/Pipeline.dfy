/**
 The image enrichment pipeline as one state machine: the webhook that stores an
 image and its jobs, the workers of these with their
 claim / execute / release / commit / enqueue / ACK protocol, and the reclaimer.

 Postgres, Qdrant and Redis are values in State.  A worker's open transaction is
 buffered in its program counter and reaches the database only at a commit; a
 crash or a rollback drops it.  A Run is any interleaving of the actions below.

 A job is identified by its job_key (a unique column); the random job_id that
 goes with it is not represented.
 */
module Pipeline {
  import opened Options
  import opened Runs

  type ImageId = nat
  type Worker = nat

  // ---------------------------------------------------------------------
  // Tables
  // ---------------------------------------------------------------------

  datatype JobKey =
    | CaptionJob(image: ImageId)
    | CaptionEmbedJob(image: ImageId)
    | ImageEmbedJob(image: ImageId)
    | EventJob(image: ImageId)

  datatype JobState = Pending | Leased | Succeeded | RetryWait | FailedTerminal

  datatype Job = Job(state: JobState, owner: Option<Worker>, attempts: nat, maxAttempts: nat)

  datatype CaptionStatus = CaptionPending | CaptionSuccess | CaptionFailed

  /** eventful says that the trigger is an alert or an anomaly; it never changes. */
  datatype Image = Image(captionStatus: CaptionStatus, captionText: Option<string>, embedded: bool, eventful: bool)

  datatype Actor = ByWorker(w: Worker) | ByReclaimer

  /** One row of the append-only panoptic_job_history table. */
  datatype HistoryRow = HistoryRow(key: JobKey, state: JobState, actor: Actor)

  datatype Db = Db(images: map<ImageId, Image>, jobs: map<JobKey, Job>, history: set<HistoryRow>)

  const DEFAULT_MAX_ATTEMPTS: nat := 3

  function FreshJob(): Job {
    Job(Pending, None, 0, DEFAULT_MAX_ATTEMPTS)
  }

  /** INSERT ... ON CONFLICT (job_key) DO NOTHING. */
  function InsertJob(jobs: map<JobKey, Job>, key: JobKey): map<JobKey, Job> {
    if key in jobs then jobs else jobs[key := FreshJob()]
  }

  /** The key as a list when the insert above created the row (RETURNING job_id). */
  function Inserted(jobs: map<JobKey, Job>, key: JobKey): seq<JobKey> {
    if key in jobs then [] else [key]
  }

  // ---------------------------------------------------------------------
  // Worker program counters
  // ---------------------------------------------------------------------

  /** The image UPDATE a worker's open transaction holds. */
  datatype Write =
    | NoWrite
    | MarkFailed(image: ImageId)
    | SetCaption(image: ImageId, text: Option<string>)
    | SetEmbedded(image: ImageId)

  datatype Pc =
    | Idle
    | Claimed(key: JobKey)
    | Loaded(key: JobKey, exhausted: bool)
    | Captioning(key: JobKey, exhausted: bool)
    | Embedding(key: JobKey, exhausted: bool, text: string)
    | Upserted(key: JobKey, exhausted: bool)
    | Releasing(key: JobKey, outcome: JobState, write: Write)
    | PostCommit(key: JobKey, outcome: JobState, todo: seq<JobKey>)
    | Acking(key: JobKey, outcome: JobState)

  /** What the caption executor meets after it has fetched an uncaptioned row. */
  datatype CaptionReply =
    | FileMissing
    | Parsed(caption: Option<string>)   // json.loads(raw)["caption"], possibly null
    | Unparsed(stripped: string)        // raw.strip(), when the JSON is unusable

  datatype WorkerOp =
    | Claim(key: JobKey)
    | LoadJob
    | FetchRow
    | Caption(reply: CaptionReply)
    | UpsertPoint
    | MarkEmbedded
    | OtherExecutor(outcome: JobState)  // the image_embed and event_produce executors
    | Raise                             // the executor raises
    | Release(heartbeatValid: bool)
    | EnqueueNext(ok: bool)
    | EnqueueDlq(ok: bool)
    | Ack
    | Crash                             // process death, or an exception outside the executor

  /** A row the reclaimer selected as expired, with its attempt counters. */
  datatype ScanRow = ScanRow(key: JobKey, exhausted: bool)

  datatype Action =
    | ReceiveImage(image: ImageId, eventful: bool)
    | FlushOutbox(key: JobKey)
    | FlushDlqOutbox(key: JobKey)
    | Scan(expired: set<JobKey>)
    | Reclaim(row: ScanRow)
    | Work(w: Worker, op: WorkerOp)

  /**
   streams and dlq hold every key ever added to a job stream or DLQ; acked the
   (worker, key) pairs a worker has ACKed.  outbox and dlqOutbox are XADD calls
   that the webhook and the reclaimer make after a commit and that a crash or a
   Redis failure may lose.  snapshot holds the rows of committed reclaimer scans
   that are still to be processed.
   */
  datatype State = State(
    db: Db,
    points: map<ImageId, string>,
    streams: set<JobKey>,
    dlq: set<JobKey>,
    acked: set<(Worker, JobKey)>,
    outbox: set<JobKey>,
    dlqOutbox: set<JobKey>,
    snapshot: multiset<ScanRow>,
    workers: map<Worker, Pc>)

  const INITIAL: State :=
    State(Db(map[], map[], {}), map[], {}, {}, {}, {}, {}, multiset{}, map[])

  function PcOf(s: State, w: Worker): Pc {
    if w in s.workers then s.workers[w] else Idle
  }

  function Goto(s: State, w: Worker, pc: Pc): State {
    s.(workers := s.workers[w := pc])
  }

  predicate Owns(db: Db, w: Worker, key: JobKey) {
    key in db.jobs && db.jobs[key].owner == Some(w)
  }

  predicate Captioned(db: Db, i: ImageId) {
    i in db.images && db.images[i].captionStatus == CaptionSuccess
  }

  // ---------------------------------------------------------------------
  // Worker steps
  // ---------------------------------------------------------------------

  /** claim_job: a conditional UPDATE, WHERE state = 'pending'. */
  function ClaimStep(s: State, w: Worker, key: JobKey): State {
    if key in s.streams && key in s.db.jobs && s.db.jobs[key].state == Pending then
      var job := s.db.jobs[key];
      var leased := job.(state := Leased, owner := Some(w), attempts := job.attempts + 1);
      Goto(s.(db := s.db.(jobs := s.db.jobs[key := leased])), w, Claimed(key))
    else
      s
  }

  /** The first SELECT of each executor, and the branches it decides. */
  function FetchRowStep(s: State, w: Worker, key: JobKey, exhausted: bool): State {
    var i := key.image;
    match key
    case CaptionJob(_) =>
      if i !in s.db.images then Goto(s, w, Releasing(key, FailedTerminal, NoWrite))
      else if s.db.images[i].captionStatus == CaptionSuccess then
        Goto(s, w, Releasing(key, Succeeded, NoWrite))
      else Goto(s, w, Captioning(key, exhausted))
    case CaptionEmbedJob(_) =>
      if i !in s.db.images then Goto(s, w, Releasing(key, FailedTerminal, NoWrite))
      else
        var row := s.db.images[i];
        if row.embedded then Goto(s, w, Releasing(key, Succeeded, NoWrite))
        else if row.captionStatus != CaptionSuccess || row.captionText.None? || row.captionText.value == "" then
          Goto(s, w, Releasing(key, FailedTerminal, NoWrite))
        else Goto(s, w, Embedding(key, exhausted, row.captionText.value))
    case ImageEmbedJob(_) => s
    case EventJob(_) => s
  }

  function CaptionStep(s: State, w: Worker, key: JobKey, reply: CaptionReply): State {
    match reply
    case FileMissing => Goto(s, w, Releasing(key, FailedTerminal, NoWrite))
    case Parsed(caption) => Goto(s, w, Releasing(key, Succeeded, SetCaption(key.image, caption)))
    case Unparsed(stripped) =>
      if stripped == "" then Goto(s, w, Releasing(key, FailedTerminal, MarkFailed(key.image)))
      else Goto(s, w, Releasing(key, Succeeded, SetCaption(key.image, Some(stripped))))
  }

  function ApplyWrite(images: map<ImageId, Image>, write: Write): map<ImageId, Image> {
    match write
    case NoWrite => images
    case MarkFailed(i) =>
      if i in images then images[i := images[i].(captionStatus := CaptionFailed)] else images
    case SetCaption(i, text) =>
      if i in images then images[i := images[i].(captionStatus := CaptionSuccess, captionText := text)]
      else images
    case SetEmbedded(i) =>
      if i in images then images[i := images[i].(embedded := true)] else images
  }

  /** The two downstream jobs of a new caption, inserted in the same transaction. */
  function ChainJobs(jobs: map<JobKey, Job>, write: Write): map<JobKey, Job> {
    if write.SetCaption? then
      InsertJob(InsertJob(jobs, CaptionEmbedJob(write.image)), ImageEmbedJob(write.image))
    else jobs
  }

  function ChainTodo(jobs: map<JobKey, Job>, write: Write): seq<JobKey> {
    if write.SetCaption? then
      Inserted(jobs, CaptionEmbedJob(write.image)) + Inserted(jobs, ImageEmbedJob(write.image))
    else []
  }

  /** The committed effect of release_job together with the buffered writes. */
  function CommitRelease(db: Db, w: Worker, key: JobKey, outcome: JobState, write: Write): Db
    requires key in db.jobs
  {
    var released := db.jobs[key].(state := outcome, owner := None);
    Db(ApplyWrite(db.images, write),
       ChainJobs(db.jobs, write)[key := released],
       db.history + {HistoryRow(key, outcome, ByWorker(w))})
  }

  /** Release, lease check and commit; a lost lease rolls back and does not ACK. */
  function ReleaseStep(s: State, w: Worker, pc: Pc, heartbeatValid: bool): State
    requires pc.Releasing?
  {
    if Owns(s.db, w, pc.key) && heartbeatValid then
      var db' := CommitRelease(s.db, w, pc.key, pc.outcome, pc.write);
      Goto(s.(db := db'), w, PostCommit(pc.key, pc.outcome, ChainTodo(s.db.jobs, pc.write)))
    else
      Goto(s, w, Idle)
  }

  /** An executor exception goes terminal when the attempts are used up. */
  function RaiseOutcome(exhausted: bool): JobState {
    if exhausted then FailedTerminal else RetryWait
  }

  function WorkerStep(s: State, w: Worker, op: WorkerOp): State {
    var pc := PcOf(s, w);
    match op
    case Claim(key) => if pc.Idle? then ClaimStep(s, w, key) else s
    case LoadJob =>
      if pc.Claimed? && pc.key in s.db.jobs then
        var job := s.db.jobs[pc.key];
        Goto(s, w, Loaded(pc.key, job.attempts >= job.maxAttempts))
      else s
    case FetchRow => if pc.Loaded? then FetchRowStep(s, w, pc.key, pc.exhausted) else s
    case Caption(reply) => if pc.Captioning? then CaptionStep(s, w, pc.key, reply) else s
    case UpsertPoint =>
      if pc.Embedding? then
        Goto(s.(points := s.points[pc.key.image := pc.text]), w, Upserted(pc.key, pc.exhausted))
      else s
    case MarkEmbedded =>
      if pc.Upserted? then Goto(s, w, Releasing(pc.key, Succeeded, SetEmbedded(pc.key.image))) else s
    case OtherExecutor(outcome) =>
      if pc.Loaded? && (pc.key.ImageEmbedJob? || pc.key.EventJob?) && outcome in {Succeeded, FailedTerminal} then
        Goto(s, w, Releasing(pc.key, outcome, NoWrite))
      else s
    case Raise =>
      if pc.Loaded? || pc.Captioning? || pc.Embedding? || pc.Upserted? then
        Goto(s, w, Releasing(pc.key, RaiseOutcome(pc.exhausted), NoWrite))
      else s
    case Release(valid) => if pc.Releasing? then ReleaseStep(s, w, pc, valid) else s
    case EnqueueNext(ok) =>
      if pc.PostCommit? && pc.todo != [] then
        var s' := if ok then s.(streams := s.streams + {pc.todo[0]}) else s;
        Goto(s', w, PostCommit(pc.key, pc.outcome, pc.todo[1..]))
      else s
    case EnqueueDlq(ok) =>
      if pc.PostCommit? && pc.todo == [] then
        var s' := if pc.outcome == FailedTerminal && ok then s.(dlq := s.dlq + {pc.key}) else s;
        Goto(s', w, Acking(pc.key, pc.outcome))
      else s
    case Ack => if pc.Acking? then Goto(s.(acked := s.acked + {(w, pc.key)}), w, Idle) else s
    case Crash => Goto(s, w, Idle)
  }

  // ---------------------------------------------------------------------
  // The webhook and the reclaimer
  // ---------------------------------------------------------------------

  /** receive_image: the row, its caption job and its event job, if any, commit together; the enqueues come after. */
  function ReceiveStep(s: State, i: ImageId, eventful: bool): State {
    if i in s.db.images then s
    else
      var images' := s.db.images[i := Image(CaptionPending, None, false, eventful)];
      var jobs := InsertJob(s.db.jobs, CaptionJob(i));
      var todo := Inserted(s.db.jobs, CaptionJob(i)) + if eventful then Inserted(jobs, EventJob(i)) else [];
      var jobs' := if eventful then InsertJob(jobs, EventJob(i)) else jobs;
      s.(db := s.db.(images := images', jobs := jobs'), outbox := s.outbox + (set k | k in todo))
  }

  predicate Expirable(job: Job) {
    job.state == Leased || job.state == RetryWait
  }

  /** Phase 1 select of the reclaimer; it commits before any row is updated. */
  function ScanStep(s: State, expired: set<JobKey>): State {
    var hits := set k | k in expired && k in s.db.jobs && Expirable(s.db.jobs[k]) ::
      ScanRow(k, s.db.jobs[k].attempts >= s.db.jobs[k].maxAttempts);
    s.(snapshot := s.snapshot + multiset(hits))
  }

  function ReclaimState(row: ScanRow): JobState {
    if row.exhausted then FailedTerminal else Pending
  }

  /** Phase 1 update: WHERE job_id = :job_id only, whatever the row has become. */
  function ReclaimStep(s: State, row: ScanRow): State {
    if row in s.snapshot && row.key in s.db.jobs then
      var job := s.db.jobs[row.key].(state := ReclaimState(row), owner := None);
      var s' := s.(db := s.db.(jobs := s.db.jobs[row.key := job],
                               history := s.db.history + {HistoryRow(row.key, ReclaimState(row), ByReclaimer)}),
                   snapshot := s.snapshot - multiset{row});
      if row.exhausted then s'.(dlqOutbox := s'.dlqOutbox + {row.key})
      else s'.(outbox := s'.outbox + {row.key})
    else s
  }

  function Step(s: State, a: Action): State {
    match a
    case ReceiveImage(i, eventful) => ReceiveStep(s, i, eventful)
    case FlushOutbox(k) =>
      if k in s.outbox then s.(outbox := s.outbox - {k}, streams := s.streams + {k}) else s
    case FlushDlqOutbox(k) =>
      if k in s.dlqOutbox then s.(dlqOutbox := s.dlqOutbox - {k}, dlq := s.dlq + {k}) else s
    case Scan(expired) => ScanStep(s, expired)
    case Reclaim(row) => ReclaimStep(s, row)
    case Work(w, op) => WorkerStep(s, w, op)
  }

  function Run(s: State, actions: seq<Action>): State {
    Play(Step, s, actions)
  }

  function OpOf(w: Worker): Action -> Option<WorkerOp> {
    (a: Action) => if a.Work? && a.w == w then Some(a.op) else None
  }

  /** What worker w does in a run. */
  function OwnOps(actions: seq<Action>, w: Worker): seq<WorkerOp> {
    Own(OpOf(w), actions)
  }
}
