/**
 The worker code itself, statement by statement, over the shared tables.

 Cluster holds the tables as fields; each method updates them as one database or
 Redis call does.  Between any two calls of a worker everybody else may do anything,
 and the worker may crash: Interfere plays an arbitrary number of arbitrary actions
 of the others, chosen anew each time.  log records the whole history, so that every
 theorem about runs holds in every state a worker meets.
 */
module PipelineWorkers {
  import opened Options
  import opened Runs
  import opened Pipeline
  import opened PipelineProofs
  import opened PipelineTheorems

  /** What the outside world answers during one message. */
  datatype Script = Script(
    raiseAtFetch: bool,
    raiseInBody: bool,
    raiseAfterUpsert: bool,
    reply: CaptionReply,
    otherOutcome: JobState,
    heartbeatValid: bool,
    captionEmbedQueued: bool,
    imageEmbedQueued: bool,
    dlqQueued: bool)

  ghost predicate SameReleases(s: State, t: State, w: Worker) {
    forall k, st :: HistoryRow(k, st, ByWorker(w)) in t.db.history ==> HistoryRow(k, st, ByWorker(w)) in s.db.history
  }

  ghost predicate SameAcks(s: State, t: State, w: Worker) {
    forall k :: (w, k) in t.acked ==> (w, k) in s.acked
  }

  /** What w may rely on from one state to a later one: its releases and ACKs, all rows, captions and stream entries. */
  ghost predicate KeptFrom(s: State, t: State, w: Worker) {
    SameReleases(s, t, w) && SameAcks(s, t, w) && Grows(s, t) && s.streams <= t.streams && s.dlq <= t.dlq
  }

  lemma KeptThen(s: State, t: State, u: State, w: Worker)
    requires KeptFrom(s, t, w) && KeptFrom(t, u, w)
    ensures KeptFrom(s, u, w)
  {
  }

  lemma ForeignStep(s: State, a: Action, w: Worker)
    requires !IsBy(a, w)
    ensures PcOf(Step(s, a), w) == PcOf(s, w)
    ensures SameReleases(s, Step(s, a), w) && SameAcks(s, Step(s, a), w)
    ensures s.streams <= Step(s, a).streams && s.dlq <= Step(s, a).dlq
  {
    OtherPcKept(s, a, w);
    match a
    case Work(v, op) =>
      if op.Claim? || op.Release? {
      } else {
        WorkerWrites(s, v, op);
        ForeignAck(s, v, op, w);
      }
    case ReceiveImage(_, _) =>
    case FlushOutbox(_) =>
    case FlushDlqOutbox(_) =>
    case Scan(_) =>
    case Reclaim(_) =>
  }

  lemma ForeignAck(s: State, v: Worker, op: WorkerOp, w: Worker)
    requires v != w
    ensures SameAcks(s, WorkerStep(s, v, op), w)
  {
  }

  // ---------------------------------------------------------------------
  // What one message makes a worker do
  // ---------------------------------------------------------------------

  function Stepping(w: Worker): (State, WorkerOp) -> State {
    (s: State, op: WorkerOp) => WorkerStep(s, w, op)
  }

  /** The state if nobody but w moved. */
  function Alone(s: State, w: Worker, ops: seq<WorkerOp>): State {
    Play(Stepping(w), s, ops)
  }

  /** What w knows and has buffered after these operations, had nobody else moved. */
  function PcAfter(s: State, w: Worker, ops: seq<WorkerOp>): Pc {
    PcOf(Alone(s, w, ops), w)
  }

  /** Embedding depends on the caption as fetched and on nothing that others can change. */
  lemma EmbeddingIsLocal(s: State, w: Worker, script: Script)
    requires PcOf(s, w).Embedding?
    ensures PcAfter(s, w, EmbeddingOps(script)) ==
      if script.raiseInBody || script.raiseAfterUpsert then Releasing(PcOf(s, w).key, RaiseOutcome(PcOf(s, w).exhausted), NoWrite)
      else Releasing(PcOf(s, w).key, Succeeded, SetEmbedded(PcOf(s, w).key.image))
  {
    var last := if script.raiseAfterUpsert then Raise else MarkEmbedded;
    assert [Pipeline.UpsertPoint, last] == [Pipeline.UpsertPoint] + [last];
    RunCons(Stepping(w), s, Raise, []);
    RunCons(Stepping(w), s, Pipeline.UpsertPoint, [last]);
    RunCons(Stepping(w), WorkerStep(s, w, Pipeline.UpsertPoint), last, []);
  }

  function Fetched(s: State, w: Worker): Pc {
    PcOf(WorkerStep(s, w, FetchRow), w)
  }

  function CaptionOps(s: State, w: Worker, script: Script): seq<WorkerOp> {
    if script.raiseAtFetch then [Raise]
    else if Fetched(s, w).Captioning? then [FetchRow, if script.raiseInBody then Raise else Caption(script.reply)]
    else [FetchRow]
  }

  /** Qdrant strictly before the row. */
  function EmbedOps(s: State, w: Worker, script: Script): seq<WorkerOp> {
    if script.raiseAtFetch then [Raise]
    else if !Fetched(s, w).Embedding? then [FetchRow]
    else [FetchRow] + EmbeddingOps(script)
  }

  function EmbeddingOps(script: Script): seq<WorkerOp> {
    if script.raiseInBody then [Raise]
    else [Pipeline.UpsertPoint, if script.raiseAfterUpsert then Raise else MarkEmbedded]
  }

  function OtherOps(script: Script): seq<WorkerOp> {
    [if script.raiseInBody then Raise else OtherExecutor(script.otherOutcome)]
  }

  function BodyOps(key: JobKey, s: State, w: Worker, script: Script): seq<WorkerOp> {
    match key
    case CaptionJob(_) => CaptionOps(s, w, script)
    case CaptionEmbedJob(_) => EmbedOps(s, w, script)
    case ImageEmbedJob(_) => OtherOps(script)
    case EventJob(_) => OtherOps(script)
  }

  predicate Queued(key: JobKey, script: Script) {
    if key.CaptionEmbedJob? then script.captionEmbedQueued else script.imageEmbedQueued
  }

  /** One enqueue per job row the transaction inserted, each with its own outcome. */
  function EnqueueOps(todo: seq<JobKey>, script: Script): seq<WorkerOp> {
    if todo == [] then [] else [EnqueueNext(Queued(todo[0], script))] + EnqueueOps(todo[1..], script)
  }

  /** The enqueues, the DLQ entry if any, then the ACK. */
  function AfterCommitOps(todo: seq<JobKey>, script: Script): seq<WorkerOp> {
    EnqueueOps(todo, script) + [EnqueueDlq(script.dlqQueued)] + [Ack]
  }

  function ClaimedOps(body: seq<WorkerOp>, script: Script, committed: bool, todo: seq<JobKey>): seq<WorkerOp> {
    [LoadJob] + body + ReleaseOps(script, committed, todo)
  }

  function ReleaseOps(script: Script, committed: bool, todo: seq<JobKey>): seq<WorkerOp> {
    [Release(script.heartbeatValid)] + if committed then AfterCommitOps(todo, script) else []
  }

  /**
   The order of the protocol once a job is claimed: load, execute on s, release and commit, and only
   then the enqueues of todo, DLQ and ACK.
   */
  function Protocol(w: Worker, key: JobKey, script: Script, committed: bool, s: State, todo: seq<JobKey>): seq<WorkerOp> {
    [Claim(key)] + ClaimedOps(BodyOps(key, s, w, script), script, committed, todo)
  }

  /** s is what the executor met at its first operation. */
  ghost predicate ExecutedOn(log: seq<Action>, from: nat, w: Worker, body: seq<WorkerOp>, s: State) {
    body != [] && TookAt(Step, INITIAL, log, from, Work(w, body[0]), s)
  }

  /** todo is what the chained inserts of w's own commit inserted. */
  ghost predicate InsertedAt(log: seq<Action>, from: nat, w: Worker, todo: seq<JobKey>) {
    exists r :: TookAt(Step, INITIAL, log, from, Work(w, Release(true)), r) && Inserts(r, w, todo)
  }

  ghost predicate Inserts(r: State, w: Worker, todo: seq<JobKey>) {
    PcOf(r, w).Releasing? && todo == ChainTodo(r.db.jobs, PcOf(r, w).write)
  }

  lemma InsertedStays(log: seq<Action>, log': seq<Action>, from: nat, from': nat, w: Worker, todo: seq<JobKey>)
    requires InsertedAt(log, from, w, todo) && log <= log' && from' <= from
    ensures InsertedAt(log', from', w, todo)
  {
    hide TookAt, Inserts;
    var r :| TookAt(Step, INITIAL, log, from, Work(w, Release(true)), r) && Inserts(r, w, todo);
    TookStays(Step, INITIAL, log, log', from, from', Work(w, Release(true)), r);
  }

  // ---------------------------------------------------------------------
  // What the executors decide, as tables
  // ---------------------------------------------------------------------

  /** What a raised exception comes to: another attempt, while there are any. */
  predicate Raised(before: Pc, after: Pc)
    requires !before.Idle? && (before.Loaded? || before.Captioning? || before.Embedding? || before.Upserted?)
  {
    after == Releasing(before.key, if before.exhausted then FailedTerminal else RetryWait, NoWrite)
  }

  /** The caption that a reply gives: the parsed one, or the raw text when the JSON was unusable. */
  predicate Replies(reply: CaptionReply, key: JobKey, after: Pc) {
    && (reply.FileMissing? ==> after == Releasing(key, FailedTerminal, NoWrite))
    && (reply.Parsed? ==> after == Releasing(key, Succeeded, SetCaption(key.image, reply.caption)))
    && (reply == Unparsed("") ==> after == Releasing(key, FailedTerminal, MarkFailed(key.image)))
    && (reply.Unparsed? && reply.stripped != "" ==> after == Releasing(key, Succeeded, SetCaption(key.image, Some(reply.stripped))))
  }

  /** The image_caption executor, by the row it fetches and the reply. */
  predicate CaptionEnds(before: Pc, images: map<ImageId, Image>, script: Script, after: Pc)
    requires before.Loaded?
  {
    var i := before.key.image;
    if script.raiseAtFetch then Raised(before, after)
    else if i !in images then after == Releasing(before.key, FailedTerminal, NoWrite)
    else if images[i].captionStatus == CaptionSuccess then after == Releasing(before.key, Succeeded, NoWrite)
    else if script.raiseInBody then Raised(before, after)
    else Replies(script.reply, before.key, after)
  }

  /** The caption_embed executor, by the row it fetches. */
  predicate EmbedEnds(before: Pc, images: map<ImageId, Image>, script: Script, after: Pc)
    requires before.Loaded?
  {
    var i := before.key.image;
    if script.raiseAtFetch then Raised(before, after)
    else if i !in images then after == Releasing(before.key, FailedTerminal, NoWrite)
    else if images[i].embedded then after == Releasing(before.key, Succeeded, NoWrite)
    else if images[i].captionStatus != CaptionSuccess || images[i].captionText.None? || images[i].captionText.value == "" then
      after == Releasing(before.key, FailedTerminal, NoWrite)
    else if script.raiseInBody || script.raiseAfterUpsert then Raised(before, after)
    else after == Releasing(before.key, Succeeded, SetEmbedded(i))
  }

  lemma CaptionTable(s: State, w: Worker, script: Script)
    requires PcOf(s, w).Loaded? && PcOf(s, w).key.CaptionJob?
    ensures CaptionEnds(PcOf(s, w), s.db.images, script, PcAfter(s, w, CaptionOps(s, w, script)))
  {
    var next := if script.raiseInBody then Raise else Caption(script.reply);
    RunCons(Stepping(w), s, Raise, []);
    RunCons(Stepping(w), s, FetchRow, [next]);
    RunCons(Stepping(w), WorkerStep(s, w, FetchRow), next, []);
    assert [FetchRow, next] == [FetchRow] + [next];
  }

  lemma EmbedTable(s: State, w: Worker, script: Script)
    requires PcOf(s, w).Loaded? && PcOf(s, w).key.CaptionEmbedJob?
    ensures EmbedEnds(PcOf(s, w), s.db.images, script, PcAfter(s, w, EmbedOps(s, w, script)))
  {
    RunCons(Stepping(w), s, Raise, []);
    RunCons(Stepping(w), s, FetchRow, []);
    RunCons(Stepping(w), s, FetchRow, EmbeddingOps(script));
    if Fetched(s, w).Embedding? {
      EmbeddingIsLocal(WorkerStep(s, w, FetchRow), w, script);
    }
    hide EmbeddingOps, Alone;
  }

  /** The executor that the job's type selects. */
  predicate Ends(before: Pc, images: map<ImageId, Image>, script: Script, after: Pc)
    requires before.Loaded?
  {
    match before.key
    case CaptionJob(_) => CaptionEnds(before, images, script, after)
    case CaptionEmbedJob(_) => EmbedEnds(before, images, script, after)
    case ImageEmbedJob(_) => if script.raiseInBody then Raised(before, after) else after == Releasing(before.key, script.otherOutcome, NoWrite)
    case EventJob(_) => if script.raiseInBody then Raised(before, after) else after == Releasing(before.key, script.otherOutcome, NoWrite)
  }

  /** Every key whose XADD succeeds is on its stream. */
  predicate Delivered(streams: set<JobKey>, todo: seq<JobKey>, script: Script) {
    forall k :: k in todo && (if k.CaptionEmbedJob? then script.captionEmbedQueued else script.imageEmbedQueued) ==> k in streams
  }

  /** The released outcome is the one that the executor came to on these rows; a failure is on the DLQ unless that XADD failed. */
  ghost predicate Concluded(db: Db, dlq: set<JobKey>, alive: bool, w: Worker, key: JobKey, images: map<ImageId, Image>, script: Script) {
    exists last, after :: Ends(Loaded(key, last), images, script, after) && after.Releasing?
      && HistoryRow(key, after.outcome, ByWorker(w)) in db.history
      && (alive && after.outcome == FailedTerminal && script.dlqQueued ==> key in dlq)
  }

  /** What a commit does to the image rows. */
  ghost predicate Updates(before: map<ImageId, Image>, after: map<ImageId, Image>, write: Write) {
    && after.Keys == before.Keys
    && forall i :: i in before ==>
      var old', new' := before[i], after[i];
      match write
      case NoWrite => new' == old'
      case MarkFailed(j) => if i == j then new' == Image(CaptionFailed, old'.captionText, old'.embedded, old'.eventful) else new' == old'
      case SetCaption(j, text) => if i == j then new' == Image(CaptionSuccess, text, old'.embedded, old'.eventful) else new' == old'
      case SetEmbedded(j) => if i == j then new' == Image(old'.captionStatus, old'.captionText, true, old'.eventful) else new' == old'
  }

  /** The job rows after a commit: the released one, the two of a new caption where missing, all others as they were. */
  ghost predicate Chains(before: map<JobKey, Job>, after: map<JobKey, Job>, key: JobKey, outcome: JobState, write: Write, todo: seq<JobKey>)
    requires key in before
  {
    && todo == (if write.SetCaption? && CaptionEmbedJob(write.image) !in before then [CaptionEmbedJob(write.image)] else [])
             + (if write.SetCaption? && ImageEmbedJob(write.image) !in before then [ImageEmbedJob(write.image)] else [])
    && after.Keys == before.Keys + (set k | k in todo)
    && after[key] == Job(outcome, None, before[key].attempts, before[key].maxAttempts)
    && (forall k :: k in before && k != key ==> after[k] == before[k])
    && (forall k :: k in todo ==> after[k] == Job(Pending, None, 0, 3))
  }

  class Cluster {
    var db: Db
    var points: map<ImageId, string>
    var streams: set<JobKey>
    var dlq: set<JobKey>
    var acked: set<(Worker, JobKey)>
    var outbox: set<JobKey>
    var dlqOutbox: set<JobKey>
    var snapshot: multiset<ScanRow>
    /** The local variables and open transaction of each worker process. */
    var workers: map<Worker, Pc>
    ghost var log: seq<Action>

    function View(): State
      reads this
    {
      State(db, points, streams, dlq, acked, outbox, dlqOutbox, snapshot, workers)
    }

    function Local(w: Worker): Pc
      reads this
    {
      PcOf(View(), w)
    }

    predicate Claimable(key: JobKey)
      reads this
    {
      key in db.jobs && db.jobs[key].state == Pending
    }

    /** The fields are the outcome of a run from the empty state. */
    ghost predicate Valid()
      reads this
    {
      View() == Run(INITIAL, log)
    }

    /** w has done these operations since, or a beginning of them and then crashed. */
    twostate predicate Did(alive: bool, w: Worker, ops: seq<WorkerOp>)
      reads this
    {
      old(log) <= log && Performed(alive, old(OwnOps(log, w)), OwnOps(log, w), ops, Crash)
    }

    /** The step of w that came next. */
    twostate predicate Began(w: Worker, ops: seq<WorkerOp>)
      reads this
    {
      ops != [] && |old(log)| < |log| && log[|old(log)|] == Work(w, ops[0])
    }

    /** The executor did body on what it met in s, or w crashed before it, with at most early done. */
    twostate predicate Executed(alive: bool, w: Worker, early: seq<WorkerOp>, body: seq<WorkerOp>, s: State)
      reads this
    {
      ExecutedOn(log, |old(log)|, w, body, s) || (!alive && BrokeOff(old(OwnOps(log, w)), OwnOps(log, w), early, Crash))
    }

    twostate predicate Kept(w: Worker)
      reads this
    {
      KeptFrom(old(View()), View(), w)
    }

    constructor ()
      ensures Valid() && View() == INITIAL && log == []
    {
      db, points := INITIAL.db, INITIAL.points;
      streams, dlq, acked := {}, {}, {};
      outbox, dlqOutbox, snapshot := {}, {}, multiset{};
      workers := map[];
      log := [];
    }

    /** The step just taken is recorded. */
    twostate lemma PlayedIsValid(a: Action)
      requires old(Valid()) && View() == Step(old(View()), a) && log == old(log) + [a]
      ensures Valid() && Grows(old(View()), View())
    {
      hide Step, Inv;
      RunSnoc(Step, INITIAL, old(log), a);
      ReachableInv(old(log));
      StepKeeps(old(View()), a);
    }

    /** One action of somebody else. */
    method PlayOther(a: Action, ghost w: Worker)
      requires Valid() && !IsBy(a, w)
      modifies this
      ensures Valid() && old(log) <= log && OwnOps(log, w) == old(OwnOps(log, w))
      ensures Local(w) == old(Local(w)) && Kept(w)
    {
      hide Step, Inv;
      ForeignStep(View(), a, w);
      var next := Step(View(), a);
      db, points, streams, dlq, acked := next.db, next.points, next.streams, next.dlq, next.acked;
      outbox, dlqOutbox, snapshot, workers := next.outbox, next.dlqOutbox, next.snapshot, next.workers;
      OwnSnoc(OpOf(w), log, a);
      log := log + [a];
      PlayedIsValid(a);
    }

    /** Any number of steps of the others, and perhaps a crash. */
    method Interfere(w: Worker) returns (alive: bool)
      requires Valid()
      modifies this
      ensures Valid() && Did(alive, w, []) && Kept(w)
      ensures Local(w) == if alive then old(Local(w)) else Idle
    {
      hide Run, OwnOps;
      var schedule: seq<Action> := *;
      for i := 0 to |schedule|
        invariant Valid() && old(log) <= log && OwnOps(log, w) == old(OwnOps(log, w))
        invariant Local(w) == old(Local(w)) && Kept(w)
      {
        if !IsBy(schedule[i], w) {
          PlayOther(schedule[i], w);
        }
      }
      alive := *;
      if !alive {
        Move(w, Idle, Crash);
        BrokeNow(old(OwnOps(log, w)), Crash);
      }
    }

    /** w goes on to pc, which the step function must agree with; the tables stay. */
    method Move(w: Worker, pc: Pc, ghost op: WorkerOp)
      requires Valid() && WorkerStep(View(), w, op) == Goto(View(), w, pc)
      modifies this`workers, this`log
      ensures Valid() && Local(w) == pc && Kept(w) && View() == WorkerStep(old(View()), w, op)
      ensures log == old(log) + [Work(w, op)] && OwnOps(log, w) == old(OwnOps(log, w)) + [op]
    {
      hide Run, WorkerStep;
      workers := workers[w := pc];
      OwnSnoc(OpOf(w), log, Work(w, op));
      log := log + [Work(w, op)];
      PlayedIsValid(Work(w, op));
    }

    // -------------------------------------------------------------------
    // The database, stream and Qdrant calls
    // -------------------------------------------------------------------

    /** claim_job: UPDATE ... WHERE state = 'pending', committed at once. */
    method ClaimJob(w: Worker, key: JobKey) returns (claimed: bool)
      requires Valid() && Local(w).Idle? && key in streams
      modifies this`db, this`workers, this`log
      ensures Valid() && Did(true, w, [Claim(key)]) && Kept(w)
      ensures View() == WorkerStep(old(View()), w, Claim(key))
      ensures claimed <==> old(Claimable(key))
      ensures !claimed ==> db == old(db)
      ensures claimed ==> db == old(db).(jobs := old(db.jobs)[key := Job(Leased, Some(w), old(db.jobs)[key].attempts + 1, old(db.jobs)[key].maxAttempts)])
      ensures Local(w) == if claimed then Claimed(key) else Idle
      ensures claimed ==> Owns(db, w, key)
    {
      claimed := key in db.jobs && db.jobs[key].state == Pending;
      if claimed {
        var job := db.jobs[key];
        job := job.(state := Leased, owner := Some(w), attempts := job.attempts + 1);
        db := db.(jobs := db.jobs[key := job]);
        workers := workers[w := Claimed(key)];
      }
      OwnSnoc(OpOf(w), log, Work(w, Claim(key)));
      log := log + [Work(w, Claim(key))];
      PlayedIsValid(Work(w, Claim(key)));
    }

    /** The Qdrant upsert. */
    method UpsertPoint(w: Worker)
      requires Valid() && Local(w).Embedding?
      modifies this`points, this`workers, this`log
      ensures Valid() && Did(true, w, [Pipeline.UpsertPoint]) && Kept(w)
      ensures View() == WorkerStep(old(View()), w, Pipeline.UpsertPoint)
      ensures points == old(points)[old(Local(w)).key.image := old(Local(w)).text]
    {
      var pc := Local(w);
      points := points[pc.key.image := pc.text];
      workers := workers[w := Upserted(pc.key, pc.exhausted)];
      OwnSnoc(OpOf(w), log, Work(w, Pipeline.UpsertPoint));
      log := log + [Work(w, Pipeline.UpsertPoint)];
      PlayedIsValid(Work(w, Pipeline.UpsertPoint));
    }

    /** One XADD after the commit; ok says whether Redis took it. */
    method EnqueueJob(w: Worker, ok: bool)
      requires Valid() && Local(w).PostCommit? && Local(w).todo != []
      modifies this`streams, this`workers, this`log
      ensures Valid() && Did(true, w, [EnqueueNext(ok)]) && Kept(w)
      ensures streams == old(streams) + if ok then {old(Local(w)).todo[0]} else {}
      ensures Local(w) == old(Local(w)).(todo := old(Local(w)).todo[1..])
    {
      var pc := Local(w);
      if ok {
        streams := streams + {pc.todo[0]};
      }
      workers := workers[w := PostCommit(pc.key, pc.outcome, pc.todo[1..])];
      OwnSnoc(OpOf(w), log, Work(w, EnqueueNext(ok)));
      log := log + [Work(w, EnqueueNext(ok))];
      PlayedIsValid(Work(w, EnqueueNext(ok)));
    }

    /** enqueue_dlq, for a terminal failure only. */
    method EnqueueDeadLetter(w: Worker, ok: bool)
      requires Valid() && Local(w).PostCommit? && Local(w).todo == []
      modifies this`dlq, this`workers, this`log
      ensures Valid() && Did(true, w, [EnqueueDlq(ok)]) && Kept(w)
      ensures dlq == old(dlq) + if old(Local(w)).outcome == FailedTerminal && ok then {old(Local(w)).key} else {}
      ensures Local(w) == Acking(old(Local(w)).key, old(Local(w)).outcome)
    {
      var pc := Local(w);
      if pc.outcome == FailedTerminal && ok {
        dlq := dlq + {pc.key};
      }
      workers := workers[w := Acking(pc.key, pc.outcome)];
      OwnSnoc(OpOf(w), log, Work(w, EnqueueDlq(ok)));
      log := log + [Work(w, EnqueueDlq(ok))];
      PlayedIsValid(Work(w, EnqueueDlq(ok)));
    }

    method AckMessage(w: Worker)
      requires Valid() && Local(w).Acking?
      modifies this`acked, this`workers, this`log
      ensures Valid() && Did(true, w, [Ack])
      ensures SameReleases(old(View()), View(), w)
      ensures acked == old(acked) + {(w, old(Local(w)).key)} && Local(w).Idle?
    {
      acked := acked + {(w, Local(w).key)};
      workers := workers[w := Idle];
      OwnSnoc(OpOf(w), log, Work(w, Ack));
      log := log + [Work(w, Ack)];
      PlayedIsValid(Work(w, Ack));
    }

    /** The rows that the open transaction inserts for a new caption, and the keys that were new. */
    method ChainedJobs(write: Write) returns (jobs: map<JobKey, Job>, todo: seq<JobKey>)
      ensures jobs == ChainJobs(db.jobs, write) && todo == ChainTodo(db.jobs, write)
      ensures forall key, outcome :: key in db.jobs ==> Chains(db.jobs, jobs[key := db.jobs[key].(state := outcome, owner := None)], key, outcome, write, todo)
    {
      jobs, todo := db.jobs, [];
      if write.SetCaption? {
        var embed, image := CaptionEmbedJob(write.image), ImageEmbedJob(write.image);
        if embed !in jobs {
          jobs, todo := jobs[embed := FreshJob()], todo + [embed];
        }
        if image !in jobs {
          jobs, todo := jobs[image := FreshJob()], todo + [image];
        }
      }
    }

    /** The image rows with the buffered UPDATE. */
    method WrittenImages(write: Write) returns (images: map<ImageId, Image>)
      ensures images == ApplyWrite(db.images, write) && Updates(db.images, images, write)
    {
      images := db.images;
      match write {
        case NoWrite =>
        case MarkFailed(i) =>
          if i in images {
            images := images[i := images[i].(captionStatus := CaptionFailed)];
          }
        case SetCaption(i, text) =>
          if i in images {
            images := images[i := images[i].(captionStatus := CaptionSuccess, captionText := text)];
          }
        case SetEmbedded(i) =>
          if i in images {
            images := images[i := images[i].(embedded := true)];
          }
      }
    }

    /** The buffered write, the chained jobs, the release and its history row, all at once. */
    twostate predicate Commits(w: Worker)
      requires old(Local(w)).Releasing? && old(Local(w)).key in old(db.jobs)
      reads this
    {
      && Local(w).PostCommit? && Local(w).outcome == old(Local(w)).outcome
      && Updates(old(db.images), db.images, old(Local(w)).write)
      && Chains(old(db.jobs), db.jobs, old(Local(w)).key, old(Local(w)).outcome, old(Local(w)).write, Local(w).todo)
      && db.history == old(db.history) + {HistoryRow(old(Local(w)).key, old(Local(w)).outcome, ByWorker(w))}
    }

    /** The commit: the buffered write, the chained jobs and the release become visible together. */
    method CommitRelease(w: Worker)
      requires Valid() && Local(w).Releasing? && Owns(db, w, Local(w).key)
      modifies this`db, this`workers, this`log
      ensures Valid() && Did(true, w, [Release(true)])
      ensures View() == WorkerStep(old(View()), w, Release(true)) && log == old(log) + [Work(w, Release(true))]
      ensures Local(w).PostCommit? && Local(w).key == old(Local(w)).key && Inserts(old(View()), w, Local(w).todo)
      ensures HistoryRow(Local(w).key, Local(w).outcome, ByWorker(w)) in db.history
      ensures Commits(w)
    {
      hide ApplyWrite, ChainJobs, ChainTodo, Grows, Updates, Chains;
      var pc := Local(w);
      var jobs, todo := ChainedJobs(pc.write);
      var images := WrittenImages(pc.write);
      jobs := jobs[pc.key := db.jobs[pc.key].(state := pc.outcome, owner := None)];
      db := Db(images, jobs, db.history + {HistoryRow(pc.key, pc.outcome, ByWorker(w))});
      workers := workers[w := PostCommit(pc.key, pc.outcome, todo)];
      OwnSnoc(OpOf(w), log, Work(w, Release(true)));
      log := log + [Work(w, Release(true))];
      PlayedIsValid(Work(w, Release(true)));
    }

    /** release_job WHERE lease_owner = worker_id, the heartbeat check, then commit or rollback. */
    method ReleaseJob(w: Worker, heartbeatValid: bool) returns (released: bool)
      requires Valid() && Local(w).Releasing?
      modifies this`db, this`workers, this`log
      ensures Valid() && Did(true, w, [Release(heartbeatValid)])
      ensures View() == WorkerStep(old(View()), w, Release(heartbeatValid))
      ensures log == old(log) + [Work(w, Release(heartbeatValid))]
      ensures released <==> old(Owns(db, w, Local(w).key)) && heartbeatValid
      ensures released ==> Local(w).PostCommit? && Local(w).key == old(Local(w)).key
      ensures released ==> Inserts(old(View()), w, Local(w).todo)
      ensures released ==> HistoryRow(Local(w).key, Local(w).outcome, ByWorker(w)) in db.history
      ensures released ==> Commits(w)
      ensures !released ==> db == old(db) && Local(w).Idle?
    {
      hide Run, OwnOps, ApplyWrite, ChainJobs, ChainTodo, Updates, Chains;
      var key := Local(w).key;
      released := false;
      if key in db.jobs && db.jobs[key].owner == Some(w) {
        if heartbeatValid {
          CommitRelease(w);
          released := true;
          return;
        }
      }
      Move(w, Idle, Release(heartbeatValid));
    }

    // -------------------------------------------------------------------
    // The executors
    // -------------------------------------------------------------------

    /** The except branch around the executor: nothing is buffered, the attempts decide. */
    method HandleException(w: Worker)
      requires Valid()
      requires Local(w).Loaded? || Local(w).Captioning? || Local(w).Embedding? || Local(w).Upserted?
      modifies this`workers, this`log
      ensures Valid() && Did(true, w, [Raise]) && Kept(w) && log == old(log) + [Work(w, Raise)]
      ensures Local(w) == old(PcOf(WorkerStep(View(), w, Raise), w))
      ensures Raised(old(Local(w)), Local(w))
    {
      var pc := Local(w);
      Move(w, Releasing(pc.key, if pc.exhausted then FailedTerminal else RetryWait, NoWrite), Raise);
    }

    /** The image_caption executor. */
    method RunImageCaptionJob(w: Worker, script: Script) returns (alive: bool)
      requires Valid() && Local(w).Loaded? && Local(w).key.CaptionJob?
      modifies this
      ensures Valid() && Did(alive, w, CaptionOps(old(View()), w, script)) && Kept(w)
      ensures Began(w, CaptionOps(old(View()), w, script))
      ensures Local(w) == if alive then PcAfter(old(View()), w, CaptionOps(old(View()), w, script)) else Idle
      ensures alive ==> CaptionEnds(old(Local(w)), old(db.images), script, Local(w))
    {
      hide Run, OwnOps, KeptFrom, CaptionEnds, Replies, Raised;
      CaptionTable(View(), w, script);
      ghost var start := View();
      ghost var next := if script.raiseInBody then Raise else Caption(script.reply);
      RunCons(Stepping(w), View(), Raise, []);
      RunCons(Stepping(w), View(), FetchRow, [next]);
      RunCons(Stepping(w), WorkerStep(View(), w, FetchRow), next, []);
      var pc := Local(w);
      if script.raiseAtFetch {
        HandleException(w);
        return true;
      }
      if pc.key.image !in db.images {
        Move(w, Releasing(pc.key, FailedTerminal, NoWrite), FetchRow);
        return true;
      }
      var row := db.images[pc.key.image];
      if row.captionStatus == CaptionSuccess {
        Move(w, Releasing(pc.key, Succeeded, NoWrite), FetchRow);
        return true;
      }
      Move(w, Captioning(pc.key, pc.exhausted), FetchRow);
      ghost var own, mid := OwnOps(log, w), View();
      alive := CaptionImage(w, script);
      KeptThen(start, mid, View(), w);
      assert [FetchRow, next] == [FetchRow] + [next];
      PerformedThen(alive, old(OwnOps(log, w)), own, OwnOps(log, w), [FetchRow], [next], Crash);
    }

    /** The file, the VLM call, its reply, and the UPDATE that the reply decides. */
    method CaptionImage(w: Worker, script: Script) returns (alive: bool)
      requires Valid() && Local(w).Captioning?
      modifies this
      ensures Valid() && Did(alive, w, [if script.raiseInBody then Raise else Caption(script.reply)]) && Kept(w)
      ensures Local(w) == if alive then PcOf(WorkerStep(old(View()), w, if script.raiseInBody then Raise else Caption(script.reply)), w) else Idle
    {
      hide Run, OwnOps, KeptFrom;
      ghost var start := View();
      alive := Interfere(w);
      if !alive {
        BrokeEarly(old(OwnOps(log, w)), OwnOps(log, w), [], [if script.raiseInBody then Raise else Caption(script.reply)], Crash);
        return;
      }
      ghost var mid := View();
      if script.raiseInBody {
        HandleException(w);
        KeptThen(start, mid, View(), w);
        return;
      }
      ReadReply(w, script.reply);
      KeptThen(start, mid, View(), w);
    }

    /** The parsed caption, the raw text instead of it, or a failure. */
    method ReadReply(w: Worker, reply: CaptionReply)
      requires Valid() && Local(w).Captioning?
      modifies this`workers, this`log
      ensures Valid() && Did(true, w, [Caption(reply)]) && Kept(w)
      ensures Local(w) == PcOf(WorkerStep(old(View()), w, Caption(reply)), w)
      ensures Replies(reply, old(Local(w)).key, Local(w))
    {
      var pc := Local(w);
      match reply {
        case FileMissing =>
          Move(w, Releasing(pc.key, FailedTerminal, NoWrite), Caption(reply));
        case Parsed(caption) =>
          Move(w, Releasing(pc.key, Succeeded, SetCaption(pc.key.image, caption)), Caption(reply));
        case Unparsed(stripped) =>
          if stripped == "" {
            Move(w, Releasing(pc.key, FailedTerminal, MarkFailed(pc.key.image)), Caption(reply));
          } else {
            Move(w, Releasing(pc.key, Succeeded, SetCaption(pc.key.image, Some(stripped))), Caption(reply));
          }
      }
    }

    /** The caption_embed executor. */
    method RunCaptionEmbedJob(w: Worker, script: Script) returns (alive: bool)
      requires Valid() && Local(w).Loaded? && Local(w).key.CaptionEmbedJob?
      modifies this
      ensures Valid() && Did(alive, w, EmbedOps(old(View()), w, script)) && Kept(w)
      ensures Began(w, EmbedOps(old(View()), w, script))
      ensures Local(w) == if alive then PcAfter(old(View()), w, EmbedOps(old(View()), w, script)) else Idle
      ensures alive ==> EmbedEnds(old(Local(w)), old(db.images), script, Local(w))
    {
      hide Run, OwnOps, KeptFrom, EmbedEnds, Raised;
      EmbedTable(View(), w, script);
      ghost var start := View();
      RunCons(Stepping(w), View(), Raise, []);
      RunCons(Stepping(w), View(), FetchRow, []);
      RunCons(Stepping(w), View(), FetchRow, EmbeddingOps(script));
      var pc := Local(w);
      if script.raiseAtFetch {
        HandleException(w);
        return true;
      }
      if pc.key.image !in db.images {
        Move(w, Releasing(pc.key, FailedTerminal, NoWrite), FetchRow);
        return true;
      }
      var row := db.images[pc.key.image];
      if row.embedded {
        Move(w, Releasing(pc.key, Succeeded, NoWrite), FetchRow);
        return true;
      }
      if row.captionStatus != CaptionSuccess || row.captionText.None? || row.captionText.value == "" {
        Move(w, Releasing(pc.key, FailedTerminal, NoWrite), FetchRow);
        return true;
      }
      Move(w, Embedding(pc.key, pc.exhausted, row.captionText.value), FetchRow);
      ghost var own, mid := OwnOps(log, w), View();
      alive := EmbedCaption(w, script);
      KeptThen(start, mid, View(), w);
      PerformedThen(alive, old(OwnOps(log, w)), own, OwnOps(log, w), [FetchRow], EmbeddingOps(script), Crash);
    }

    /** The vector, the Qdrant upsert, then the buffered UPDATE. */
    method EmbedCaption(w: Worker, script: Script) returns (alive: bool)
      requires Valid() && Local(w).Embedding?
      modifies this
      ensures Valid() && Did(alive, w, EmbeddingOps(script)) && Kept(w)
      ensures Local(w) == if alive then PcAfter(old(View()), w, EmbeddingOps(script)) else Idle
    {
      hide Run, OwnOps, KeptFrom, WorkerStep;
      EmbeddingIsLocal(View(), w, script);
      ghost var start, own := View(), OwnOps(log, w);
      alive := Interfere(w);
      if !alive {
        BrokeEarly(own, OwnOps(log, w), [], EmbeddingOps(script), Crash);
        return;
      }
      ghost var mid := View();
      EmbeddingIsLocal(View(), w, script);
      alive := EmbedNow(w, script);
      KeptThen(start, mid, View(), w);
    }

    /** The same once the embedding service is called. */
    method EmbedNow(w: Worker, script: Script) returns (alive: bool)
      requires Valid() && Local(w).Embedding?
      modifies this
      ensures Valid() && Did(alive, w, EmbeddingOps(script)) && Kept(w)
      ensures Local(w) == if alive then PcAfter(old(View()), w, EmbeddingOps(script)) else Idle
    {
      hide Run, OwnOps, KeptFrom;
      EmbeddingIsLocal(View(), w, script);
      ghost var start, before := View(), OwnOps(log, w);
      if script.raiseInBody {
        HandleException(w);
        return true;
      }
      ghost var first, last := [Pipeline.UpsertPoint], [if script.raiseAfterUpsert then Raise else MarkEmbedded];
      assert EmbeddingOps(script) == first + last;
      UpsertPoint(w);
      ghost var own, mid := OwnOps(log, w), View();
      alive := MarkRow(w, script);
      KeptThen(start, mid, View(), w);
      PerformedThen(alive, before, own, OwnOps(log, w), first, last, Crash);
    }

    /** After the upsert: the buffered UPDATE, or an exception. */
    method MarkRow(w: Worker, script: Script) returns (alive: bool)
      requires Valid() && Local(w).Upserted?
      modifies this
      ensures Valid() && Did(alive, w, [if script.raiseAfterUpsert then Raise else MarkEmbedded]) && Kept(w)
      ensures Local(w) == if alive then old(PcOf(WorkerStep(View(), w, if script.raiseAfterUpsert then Raise else MarkEmbedded), w)) else Idle
    {
      hide Run, OwnOps, KeptFrom;
      ghost var start, before := View(), OwnOps(log, w);
      alive := Interfere(w);
      if !alive {
        BrokeEarly(before, OwnOps(log, w), [], [if script.raiseAfterUpsert then Raise else MarkEmbedded], Crash);
        return;
      }
      ghost var mid := View();
      if script.raiseAfterUpsert {
        HandleException(w);
      } else {
        var pc := Local(w);
        Move(w, Releasing(pc.key, Succeeded, SetEmbedded(pc.key.image)), MarkEmbedded);
      }
      KeptThen(start, mid, View(), w);
    }

    /** The image_embed or event_produce executor, of which only the outcome matters here. */
    method RunOtherJob(w: Worker, script: Script)
      requires Valid() && Local(w).Loaded? && (Local(w).key.ImageEmbedJob? || Local(w).key.EventJob?)
      requires script.otherOutcome in {Succeeded, FailedTerminal}
      modifies this`workers, this`log
      ensures Valid() && Did(true, w, OtherOps(script)) && Kept(w) && Began(w, OtherOps(script))
      ensures Local(w) == PcAfter(old(View()), w, OtherOps(script))
      ensures if script.raiseInBody then Raised(old(Local(w)), Local(w)) else Local(w) == Releasing(old(Local(w)).key, script.otherOutcome, NoWrite)
    {
      var pc := Local(w);
      RunCons(Stepping(w), View(), OtherOps(script)[0], []);
      if script.raiseInBody {
        HandleException(w);
      } else {
        Move(w, Releasing(pc.key, script.otherOutcome, NoWrite), OtherExecutor(script.otherOutcome));
      }
    }

    // -------------------------------------------------------------------
    // One message
    // -------------------------------------------------------------------

    /** SELECT payload, attempt_count, max_attempts: the last attempt shows here. */
    method LoadJobRow(w: Worker)
      requires Valid() && Local(w).Claimed? && Local(w).key in db.jobs
      modifies this`workers, this`log
      ensures Valid() && Kept(w) && log == old(log) + [Work(w, LoadJob)] && OwnOps(log, w) == old(OwnOps(log, w)) + [LoadJob]
      ensures Local(w) == Loaded(old(Local(w)).key, db.jobs[old(Local(w)).key].attempts >= db.jobs[old(Local(w)).key].maxAttempts)
    {
      var key := Local(w).key;
      var job := db.jobs[key];
      Move(w, Loaded(key, job.attempts >= job.maxAttempts), LoadJob);
    }

    /** Load the job row, then the executor that its type selects. */
    method Execute(w: Worker, script: Script) returns (alive: bool, ghost s: State, ghost body: seq<WorkerOp>)
      requires Valid() && Local(w).Claimed? && Local(w).key in db.jobs
      requires script.otherOutcome in {Succeeded, FailedTerminal}
      modifies this
      ensures Valid() && Did(alive, w, [LoadJob] + body) && Kept(w)
      ensures body == BodyOps(old(Local(w)).key, s, w, script) && Executed(alive, w, [LoadJob], body, s)
      ensures alive ==> exists last :: Ends(Loaded(old(Local(w)).key, last), s.db.images, script, Local(w))
      ensures if alive then Local(w).Releasing? && Local(w).key == old(Local(w)).key else Local(w).Idle?
    {
      hide Run, OwnOps, KeptFrom, BodyOps, Ends;
      ghost var start, before := View(), OwnOps(log, w);
      var key := Local(w).key;
      alive := Interfere(w);
      if !alive {
        s := View();
        body := BodyOps(key, s, w, script);
        BrokeEarly(before, OwnOps(log, w), [], [LoadJob] + body, Crash);
        BrokeEarly(before, OwnOps(log, w), [], [LoadJob], Crash);
        return;
      }
      ghost var mid := View();
      KeptRow(start, mid, w, key);
      LoadJobRow(w);
      KeptThen(start, mid, View(), w);
      ghost var own, loaded, past := OwnOps(log, w), View(), log;
      alive, s, body := RunExecutor(w, script);
      KeptThen(start, loaded, View(), w);
      PerformedThen(alive, before, own, OwnOps(log, w), [LoadJob], body, Crash);
      if ExecutedOn(log, |past|, w, body, s) {
        TookStays(Step, INITIAL, log, log, |past|, |old(log)|, Work(w, body[0]), s);
      } else {
        PerformedThen(false, before, own, OwnOps(log, w), [LoadJob], [], Crash);
        assert [LoadJob] + [] == [LoadJob];
      }
    }

    method RunExecutor(w: Worker, script: Script) returns (alive: bool, ghost s: State, ghost body: seq<WorkerOp>)
      requires Valid() && Local(w).Loaded? && script.otherOutcome in {Succeeded, FailedTerminal}
      modifies this
      ensures Valid() && Did(alive, w, body) && Kept(w)
      ensures body == BodyOps(old(Local(w)).key, s, w, script) && Executed(alive, w, [], body, s)
      ensures alive ==> Ends(old(Local(w)), s.db.images, script, Local(w))
      ensures if alive then Local(w).Releasing? && Local(w).key == old(Local(w)).key else Local(w).Idle?
    {
      hide Play, OwnOps, KeptFrom, CaptionOps, EmbedOps, CaptionEnds, EmbedEnds;
      ghost var start, before := View(), OwnOps(log, w);
      var key := Local(w).key;
      alive := Interfere(w);
      s := View();
      body := BodyOps(key, s, w, script);
      if !alive {
        BrokeEarly(before, OwnOps(log, w), [], body, Crash);
        return;
      }
      ghost var past := log;
      BodyReleases(s, w, script);
      match key {
        case CaptionJob(_) => alive := RunImageCaptionJob(w, script);
        case CaptionEmbedJob(_) => alive := RunCaptionEmbedJob(w, script);
        case ImageEmbedJob(_) => RunOtherJob(w, script);
        case EventJob(_) => RunOtherJob(w, script);
      }
      KeptThen(start, s, View(), w);
      JustTook(Step, INITIAL, past, log, |old(log)|, Work(w, body[0]), s);
    }

    method EnqueueOne(w: Worker, script: Script) returns (alive: bool)
      requires Valid() && Local(w).PostCommit? && Local(w).todo != []
      modifies this
      ensures Valid() && Did(alive, w, [EnqueueNext(Queued(old(Local(w)).todo[0], script))]) && Kept(w)
      ensures Local(w) == if alive then old(Local(w)).(todo := old(Local(w)).todo[1..]) else Idle
      ensures alive ==> Delivered(streams, [old(Local(w)).todo[0]], script)
    {
      hide Run, OwnOps, KeptFrom;
      ghost var start, before, next := View(), OwnOps(log, w), Local(w).todo[0];
      alive := Interfere(w);
      if !alive {
        BrokeEarly(before, OwnOps(log, w), [], [EnqueueNext(Queued(next, script))], Crash);
        return;
      }
      ghost var mid := View();
      EnqueueJob(w, Queued(Local(w).todo[0], script));
      KeptThen(start, mid, View(), w);
    }

    /** The post-commit enqueues, one per job row the transaction inserted. */
    method EnqueueAfterCommit(w: Worker, script: Script) returns (alive: bool)
      requires Valid() && Local(w).PostCommit?
      modifies this
      ensures Valid() && Did(alive, w, EnqueueOps(old(Local(w)).todo, script)) && Kept(w)
      ensures Local(w) == if alive then old(Local(w)).(todo := []) else Idle
      ensures alive ==> Delivered(streams, old(Local(w)).todo, script)
      decreases |Local(w).todo|
    {
      hide Run, OwnOps, KeptFrom, BrokeOff;
      ghost var start, before, todo := View(), OwnOps(log, w), Local(w).todo;
      if Local(w).todo == [] {
        KeptSelf(start, w);
        return true;
      }
      ghost var one, rest := [EnqueueNext(Queued(todo[0], script))], EnqueueOps(todo[1..], script);
      alive := EnqueueOne(w, script);
      if !alive {
        BrokeEarly(before, OwnOps(log, w), one, rest, Crash);
        return;
      }
      ghost var mid, own := View(), OwnOps(log, w);
      alive := EnqueueAfterCommit(w, script);
      KeptThen(start, mid, View(), w);
      KeptDeliveries(mid, View(), w, todo, script);
      PerformedThen(alive, before, own, OwnOps(log, w), one, rest, Crash);
    }

    /** After the commit: the enqueues, the DLQ entry of a terminal failure, the ACK. */
    method FinishMessage(w: Worker, script: Script) returns (alive: bool)
      requires Valid() && Local(w).PostCommit? && ReleaseLogged(db, w, Local(w).key)
      modifies this
      ensures Valid() && Did(alive, w, AfterCommitOps(old(Local(w)).todo, script))
      ensures Local(w).Idle? && ReleaseLogged(db, w, old(Local(w)).key)
      ensures if alive then (w, old(Local(w)).key) in acked else SameAcks(old(View()), View(), w)
      ensures old(db.history) <= db.history && (alive ==> Delivered(streams, old(Local(w)).todo, script))
      ensures alive && old(Local(w)).outcome == FailedTerminal && script.dlqQueued ==> old(Local(w)).key in dlq
    {
      hide Run, OwnOps, KeptFrom, Delivered;
      ghost var start, before, queue := View(), OwnOps(log, w), EnqueueOps(Local(w).todo, script);
      ghost var key, rest := Local(w).key, [EnqueueDlq(script.dlqQueued)] + [Ack];
      assert AfterCommitOps(Local(w).todo, script) == queue + rest;
      ghost var todo := Local(w).todo;
      alive := EnqueueAfterCommit(w, script);
      KeptRelease(start, View(), w, key);
      ghost var delivered := streams;
      if !alive {
        BrokeEarly(before, OwnOps(log, w), queue, rest, Crash);
        return;
      }
      ghost var own, mid := OwnOps(log, w), View();
      alive := CloseMessage(w, script);
      StillDelivered(delivered, streams, todo, script);
      PerformedThen(alive, before, own, OwnOps(log, w), queue, rest, Crash);
    }

    method CloseMessage(w: Worker, script: Script) returns (alive: bool)
      requires Valid() && Local(w).PostCommit? && Local(w).todo == [] && ReleaseLogged(db, w, Local(w).key)
      modifies this
      ensures Valid() && Did(alive, w, [EnqueueDlq(script.dlqQueued)] + [Ack])
      ensures Local(w).Idle? && ReleaseLogged(db, w, old(Local(w)).key)
      ensures if alive then (w, old(Local(w)).key) in acked else SameAcks(old(View()), View(), w)
      ensures old(streams) <= streams && old(db.history) <= db.history
      ensures alive && old(Local(w)).outcome == FailedTerminal && script.dlqQueued ==> old(Local(w)).key in dlq
    {
      hide Run, OwnOps, KeptFrom;
      ghost var start, before, key := View(), OwnOps(log, w), Local(w).key;
      ghost var dead, last := [EnqueueDlq(script.dlqQueued)], [Ack];
      alive := Interfere(w);
      KeptRelease(start, View(), w, key);
      if !alive {
        BrokeEarly(before, OwnOps(log, w), [], dead + last, Crash);
        KeptTables(start, View(), w);
        return;
      }
      ghost var mid := View();
      EnqueueDeadLetter(w, script.dlqQueued);
      KeptThen(start, mid, View(), w);
      mid := View();
      ghost var own := OwnOps(log, w);
      alive := Interfere(w);
      KeptThen(start, mid, View(), w);
      KeptRelease(start, View(), w, key);
      if !alive {
        BrokeEarly(own, OwnOps(log, w), [], last, Crash);
        PerformedThen(false, before, own, OwnOps(log, w), dead, last, Crash);
        KeptTables(start, View(), w);
        return;
      }
      KeptTables(start, View(), w);
      KeptTables(mid, View(), w);
      AckMessage(w);
      PerformedThen(true, before, own, OwnOps(log, w), dead, last, Crash);
    }

    /** From the executor's end to the end of the message. */
    method ReleaseMessage(w: Worker, script: Script) returns (alive: bool, committed: bool, ghost todo: seq<JobKey>)
      requires Valid() && Local(w).Releasing?
      modifies this
      ensures Valid() && Did(alive, w, ReleaseOps(script, committed, todo)) && Local(w).Idle?
      ensures committed ==> InsertedAt(log, |old(log)|, w, todo)
      ensures committed ==> HistoryRow(old(Local(w)).key, old(Local(w)).outcome, ByWorker(w)) in db.history
      ensures alive && committed ==> Delivered(streams, todo, script)
      ensures alive && committed && old(Local(w)).outcome == FailedTerminal && script.dlqQueued ==> old(Local(w)).key in dlq
      ensures if committed then ReleaseLogged(db, w, old(Local(w)).key) else SameReleases(old(View()), View(), w)
      ensures if alive && committed then (w, old(Local(w)).key) in acked else SameAcks(old(View()), View(), w)
    {
      hide Play, OwnOps, Delivered;
      ghost var before, rest := OwnOps(log, w), [Release(script.heartbeatValid)];
      committed, todo := false, [];
      alive := Interfere(w);
      assert ReleaseOps(script, false, []) == rest;
      if !alive {
        BrokeEarly(before, OwnOps(log, w), [], rest, Crash);
        return;
      }
      ghost var r, past := View(), log;
      committed := ReleaseJob(w, script.heartbeatValid);
      if committed {
        todo := Local(w).todo;
        JustTook(Step, INITIAL, past, log, |old(log)|, Work(w, Release(true)), r);
        ghost var own := OwnOps(log, w);
        past := log;
        alive := FinishMessage(w, script);
        InsertedStays(past, log, |old(log)|, |old(log)|, w, todo);
        PerformedThen(alive, before, own, OwnOps(log, w), rest, AfterCommitOps(todo, script), Crash);
      }
    }

    /** A claimed job to the end of its message. */
    method RunClaimed(w: Worker, script: Script)
        returns (alive: bool, committed: bool, ghost s: State, ghost todo: seq<JobKey>, ghost ops: seq<WorkerOp>)
      requires Valid() && Local(w).Claimed? && Local(w).key in db.jobs
      requires script.otherOutcome in {Succeeded, FailedTerminal}
      modifies this
      ensures Valid() && Did(alive, w, ops) && Local(w).Idle?
      ensures ops == ClaimedOps(BodyOps(old(Local(w)).key, s, w, script), script, committed, todo)
      ensures Executed(alive, w, [LoadJob], BodyOps(old(Local(w)).key, s, w, script), s)
      ensures committed ==> InsertedAt(log, |old(log)|, w, todo)
      ensures committed ==> Concluded(db, dlq, alive, w, old(Local(w)).key, s.db.images, script)
      ensures alive && committed ==> Delivered(streams, todo, script)
      ensures if committed then ReleaseLogged(db, w, old(Local(w)).key) else SameReleases(old(View()), View(), w)
      ensures if alive && committed then (w, old(Local(w)).key) in acked else SameAcks(old(View()), View(), w)
    {
      hide Run, OwnOps, BodyOps, ReleaseOps, TookAt, InsertedAt, Ends, Delivered;
      ghost var start, before := View(), OwnOps(log, w);
      ghost var body;
      committed, todo := false, [];
      alive, s, body := Execute(w, script);
      ops := ClaimedOps(body, script, false, []);
      if !alive {
        BrokeEarly(before, OwnOps(log, w), [LoadJob] + body, ReleaseOps(script, false, []), Crash);
        return;
      }
      ghost var own, executed := OwnOps(log, w), log;
      alive, committed, todo := ReleaseMessage(w, script);
      ops := ClaimedOps(body, script, committed, todo);
      PerformedThen(alive, before, own, OwnOps(log, w), [LoadJob] + body, ReleaseOps(script, committed, todo), Crash);
      TookStays(Step, INITIAL, executed, log, |old(log)|, |old(log)|, Work(w, body[0]), s);
      if committed {
        InsertedStays(log, log, |executed|, |old(log)|, w, todo);
      }
    }

    /**
     One stream message, end to end, with everybody else at work and a crash possible between any
     two calls.  The worker's own steps are those of the protocol in its order, or a beginning of
     them: the executor's on the state it met at its first step, and after a commit one enqueue for
     each job row that this commit inserted.  The message is ACKed only after its release is
     committed, and without a commit the worker leaves no release and no ACK.
     */
    method ProcessMessage(w: Worker, key: JobKey, script: Script)
        returns (alive: bool, committed: bool, ghost s: State, ghost todo: seq<JobKey>, ghost ops: seq<WorkerOp>)
      requires Valid() && Local(w).Idle? && key in streams
      requires script.otherOutcome in {Succeeded, FailedTerminal}
      modifies this
      ensures Valid() && Did(alive, w, ops) && Local(w).Idle?
      ensures if old(Claimable(key)) then ops == Protocol(w, key, script, committed, s, todo) else !committed && ops == [Claim(key)]
      ensures old(Claimable(key)) ==> Executed(alive, w, [Claim(key), LoadJob], BodyOps(key, s, w, script), s)
      ensures committed ==> InsertedAt(log, |old(log)|, w, todo)
      ensures committed ==> Concluded(db, dlq, alive, w, key, s.db.images, script)
      ensures alive && committed ==> Delivered(streams, todo, script)
      ensures if committed then ReleaseLogged(db, w, key) else SameReleases(old(View()), View(), w)
      ensures if alive && committed then (w, key) in acked else SameAcks(old(View()), View(), w)
    {
      hide Run, OwnOps, BodyOps, ClaimedOps, Concluded, Delivered;
      ghost var before := OwnOps(log, w);
      var claimed := ClaimJob(w, key);
      if !claimed {
        return true, false, View(), [], [Claim(key)];
      }
      ghost var own, past := OwnOps(log, w), log;
      alive, committed, s, todo, ops := RunClaimed(w, script);
      PerformedThen(alive, before, own, OwnOps(log, w), [Claim(key)], ops, Crash);
      ops := [Claim(key)] + ops;
      ghost var body := BodyOps(key, s, w, script);
      if ExecutedOn(log, |past|, w, body, s) {
        TookStays(Step, INITIAL, log, log, |past|, |old(log)|, Work(w, body[0]), s);
      } else {
        PerformedThen(false, before, own, OwnOps(log, w), [Claim(key)], [LoadJob], Crash);
        assert [Claim(key)] + [LoadJob] == [Claim(key), LoadJob];
      }
      if committed {
        InsertedStays(log, log, |past|, |old(log)|, w, todo);
      }
    }
  }

  lemma KeptSelf(s: State, w: Worker)
    ensures KeptFrom(s, s, w)
  {
  }

  lemma KeptRow(s: State, t: State, w: Worker, key: JobKey)
    requires KeptFrom(s, t, w) && key in s.db.jobs
    ensures key in t.db.jobs
  {
  }

  lemma KeptRelease(s: State, t: State, w: Worker, key: JobKey)
    requires KeptFrom(s, t, w)
    ensures ReleaseLogged(s.db, w, key) ==> ReleaseLogged(t.db, w, key)
    ensures SameAcks(s, t, w) && s.db.history <= t.db.history
  {
  }

  lemma KeptTables(s: State, t: State, w: Worker)
    requires KeptFrom(s, t, w)
    ensures s.streams <= t.streams && s.dlq <= t.dlq && s.db.history <= t.db.history
  {
  }

  lemma StillDelivered(before: set<JobKey>, after: set<JobKey>, todo: seq<JobKey>, script: Script)
    requires before <= after
    ensures Delivered(before, todo, script) ==> Delivered(after, todo, script)
  {
  }

  lemma KeptDeliveries(s: State, t: State, w: Worker, todo: seq<JobKey>, script: Script)
    requires KeptFrom(s, t, w) && todo != []
    ensures Delivered(s.streams, [todo[0]], script) && Delivered(t.streams, todo[1..], script) ==> Delivered(t.streams, todo, script)
  {
    assert todo == [todo[0]] + todo[1..];
  }

  ghost predicate Releases(s: State, w: Worker, ops: seq<WorkerOp>) {
    PcOf(s, w).Loaded? && PcAfter(s, w, ops).Releasing? && PcAfter(s, w, ops).key == PcOf(s, w).key
  }

  lemma ReplyReleases(s: State, w: Worker, op: WorkerOp)
    requires PcOf(s, w).Captioning? && (op.Raise? || op.Caption?)
    ensures PcOf(WorkerStep(s, w, op), w).Releasing? && PcOf(WorkerStep(s, w, op), w).key == PcOf(s, w).key
  {
  }

  lemma FetchReleases(s: State, w: Worker)
    requires PcOf(s, w).Loaded? && PcOf(s, w).key.CaptionJob?
    ensures Fetched(s, w).Captioning? || Fetched(s, w).Releasing?
    ensures Fetched(s, w).key == PcOf(s, w).key
    ensures PcOf(WorkerStep(s, w, Raise), w).Releasing? && PcOf(WorkerStep(s, w, Raise), w).key == PcOf(s, w).key
  {
  }

  lemma CaptionReleases(s: State, w: Worker, script: Script)
    requires PcOf(s, w).Loaded? && PcOf(s, w).key.CaptionJob?
    ensures Releases(s, w, CaptionOps(s, w, script))
  {
    hide WorkerStep;
    var next := if script.raiseInBody then Raise else Caption(script.reply);
    FetchReleases(s, w);
    RunCons(Stepping(w), s, Raise, []);
    RunCons(Stepping(w), s, FetchRow, [next]);
    RunCons(Stepping(w), WorkerStep(s, w, FetchRow), next, []);
    assert [FetchRow, next] == [FetchRow] + [next];
    if Fetched(s, w).Captioning? {
      ReplyReleases(WorkerStep(s, w, FetchRow), w, next);
    }
  }

  lemma EmbedReleases(s: State, w: Worker, script: Script)
    requires PcOf(s, w).Loaded? && PcOf(s, w).key.CaptionEmbedJob?
    ensures Releases(s, w, EmbedOps(s, w, script))
  {
    RunCons(Stepping(w), s, Raise, []);
    RunCons(Stepping(w), s, FetchRow, EmbeddingOps(script));
    if Fetched(s, w).Embedding? {
      EmbeddingIsLocal(WorkerStep(s, w, FetchRow), w, script);
    }
    hide EmbeddingOps;
  }

  /** Every executor ends with a release of its own job. */
  lemma BodyReleases(s: State, w: Worker, script: Script)
    requires PcOf(s, w).Loaded? && script.otherOutcome in {Succeeded, FailedTerminal}
    ensures Releases(s, w, BodyOps(PcOf(s, w).key, s, w, script))
  {
    match PcOf(s, w).key
    case CaptionJob(_) => CaptionReleases(s, w, script);
    case CaptionEmbedJob(_) => EmbedReleases(s, w, script);
    case ImageEmbedJob(_) => RunCons(Stepping(w), s, OtherOps(script)[0], []);
    case EventJob(_) => RunCons(Stepping(w), s, OtherOps(script)[0], []);
  }
}
