/**
 The report lifecycle: a report row and its single-attempt job row, written by
 the enqueue endpoint, the report workers and the reclaimer in any interleaving.

 report_id and job_key are one-to-one (both are made of serial, kind and window),
 so one ReportId stands for the pair.  Status changes of _mark_status commit at
 once on their own connection; the success UPDATE is buffered with the release.
 */
module Reports {
  import opened Options
  import opened Runs

  type ReportId = nat
  type Worker = nat

  datatype ReportStatus = ReportPending | ReportRunning | ReportSuccess | ReportFailed

  datatype JobState = Pending | Leased | Succeeded | FailedTerminal

  datatype Job = Job(state: JobState, owner: Option<Worker>, attempts: nat)

  /** _enqueue_report creates its jobs with max_attempts = 1. */
  const MAX_ATTEMPTS: nat := 1

  datatype Pc =
    | Idle
    | Claimed(rid: ReportId)
    | Marking(rid: ReportId)       // row read, about to mark it running
    | Generating(rid: ReportId)
    | Failing(rid: ReportId)       // generation raised, about to mark it failed
    | Releasing(rid: ReportId, outcome: JobState, success: bool)

  datatype WorkerOp =
    | Claim(rid: ReportId)
    | FetchReport
    | MarkRunning
    | GenerationDone
    | GenerationRaises
    | MarkFailed
    | Raise
    | Release(heartbeatValid: bool)
    | Crash

  datatype ScanRow = ScanRow(rid: ReportId, exhausted: bool)

  datatype Action =
    | Enqueue(rid: ReportId)
    | Scan(expired: set<ReportId>)
    | Reclaim(row: ScanRow)
    | Work(w: Worker, op: WorkerOp)

  datatype State = State(
    reports: map<ReportId, ReportStatus>,
    jobs: map<ReportId, Job>,
    snapshot: multiset<ScanRow>,
    workers: map<Worker, Pc>)

  const INITIAL := State(map[], map[], multiset{}, map[])

  function PcOf(s: State, w: Worker): Pc {
    if w in s.workers then s.workers[w] else Idle
  }

  function Goto(s: State, w: Worker, pc: Pc): State {
    s.(workers := s.workers[w := pc])
  }

  function SetStatus(s: State, rid: ReportId, status: ReportStatus): State {
    if rid in s.reports then s.(reports := s.reports[rid := status]) else s
  }

  predicate Owns(s: State, w: Worker, rid: ReportId) {
    rid in s.jobs && s.jobs[rid].owner == Some(w)
  }

  /** _enqueue_report: reuse unless the report is absent or failed; one transaction. */
  function EnqueueStep(s: State, rid: ReportId): State {
    if rid in s.reports && s.reports[rid] != ReportFailed then s
    else s.(reports := s.reports[rid := ReportPending], jobs := s.jobs[rid := Job(Pending, None, 0)])
  }

  function ClaimStep(s: State, w: Worker, rid: ReportId): State {
    if rid in s.jobs && s.jobs[rid].state == Pending then
      Goto(s.(jobs := s.jobs[rid := Job(Leased, Some(w), s.jobs[rid].attempts + 1)]), w, Claimed(rid))
    else s
  }

  function ReleaseStep(s: State, w: Worker, pc: Pc, heartbeatValid: bool): State
    requires pc.Releasing?
  {
    if Owns(s, w, pc.rid) && heartbeatValid then
      var t := s.(jobs := s.jobs[pc.rid := s.jobs[pc.rid].(state := pc.outcome, owner := None)]);
      Goto(if pc.success then SetStatus(t, pc.rid, ReportSuccess) else t, w, Idle)
    else Goto(s, w, Idle)
  }

  function WorkerStep(s: State, w: Worker, op: WorkerOp): State {
    var pc := PcOf(s, w);
    match op
    case Claim(rid) => if pc.Idle? then ClaimStep(s, w, rid) else s
    case FetchReport =>
      if pc.Claimed? then
        if pc.rid !in s.reports then Goto(s, w, Releasing(pc.rid, FailedTerminal, false))
        else if s.reports[pc.rid] == ReportSuccess then Goto(s, w, Releasing(pc.rid, Succeeded, false))
        else Goto(s, w, Marking(pc.rid))
      else s
    case MarkRunning =>
      if pc.Marking? then Goto(SetStatus(s, pc.rid, ReportRunning), w, Generating(pc.rid)) else s
    case GenerationDone => if pc.Generating? then Goto(s, w, Releasing(pc.rid, Succeeded, true)) else s
    case GenerationRaises => if pc.Generating? then Goto(s, w, Failing(pc.rid)) else s
    case MarkFailed =>
      if pc.Failing? then
        Goto(SetStatus(s, pc.rid, ReportFailed), w, Releasing(pc.rid, FailedTerminal, false))
      else s
    case Raise =>
      if pc.Claimed? || pc.Marking? || pc.Generating? || pc.Failing? then
        Goto(s, w, Releasing(pc.rid, FailedTerminal, false))
      else s
    case Release(valid) => if pc.Releasing? then ReleaseStep(s, w, pc, valid) else s
    case Crash => Goto(s, w, Idle)
  }

  function ScanStep(s: State, expired: set<ReportId>): State {
    var hits := set r | r in expired && r in s.jobs && s.jobs[r].state == Leased ::
      ScanRow(r, s.jobs[r].attempts >= MAX_ATTEMPTS);
    s.(snapshot := s.snapshot + multiset(hits))
  }

  function ReclaimState(row: ScanRow): JobState {
    if row.exhausted then FailedTerminal else Pending
  }

  /** The reclaimer's update names the job and nothing else. */
  function ReclaimStep(s: State, row: ScanRow): State {
    if row in s.snapshot && row.rid in s.jobs then
      s.(jobs := s.jobs[row.rid := s.jobs[row.rid].(state := ReclaimState(row), owner := None)],
         snapshot := s.snapshot - multiset{row})
    else s
  }

  function Step(s: State, a: Action): State {
    match a
    case Enqueue(rid) => EnqueueStep(s, rid)
    case Scan(expired) => ScanStep(s, expired)
    case Reclaim(row) => ReclaimStep(s, row)
    case Work(w, op) => WorkerStep(s, w, op)
  }

  function Run(s: State, actions: seq<Action>): State {
    Play(Step, s, actions)
  }

  function OpOf(w: Worker): Action -> Option<WorkerOp> {
    (a: Action) => if a.Work? && a.w == w then Some(a.op) else None
  }

  /** What worker w does in a run. */
  function OwnOps(actions: seq<Action>, w: Worker): seq<WorkerOp> {
    Own(OpOf(w), actions)
  }
}
