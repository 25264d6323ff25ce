/**
 The report endpoint and the report worker as code over the shared tables.  As in
 PipelineWorkers, Interfere lets everybody else do anything, and the worker crash,
 between any two of its calls.
 */
module ReportWorkers {
  import opened Options
  import opened Runs
  import opened Reports
  import opened ReportTheorems

  /** How generation and the surrounding calls turn out for one message. */
  datatype Script = Script(
    raiseAtFetch: bool,
    raiseAtMark: bool,
    generationRaises: bool,
    raiseAfterGeneration: bool,
    raiseAtMarkFailed: bool,
    heartbeatValid: bool)

  predicate IsBy(a: Action, w: Worker) {
    a.Work? && a.w == w
  }

  // ---------------------------------------------------------------------
  // What one message makes a worker do
  // ---------------------------------------------------------------------

  function Stepping(w: Worker): (State, WorkerOp) -> State {
    (s: State, op: WorkerOp) => WorkerStep(s, w, op)
  }

  /** What w knows and has buffered after these operations, had nobody else moved. */
  function PcAfter(s: State, w: Worker, ops: seq<WorkerOp>): Pc {
    PcOf(Play(Stepping(w), s, ops), w)
  }

  /** Generation, then the success kept for the commit, or the failed mark. */
  function GenerateOps(script: Script): seq<WorkerOp> {
    if script.generationRaises then [GenerationRaises, if script.raiseAtMarkFailed then Raise else MarkFailed]
    else [if script.raiseAfterGeneration then Raise else GenerationDone]
  }

  function MarkOps(script: Script): seq<WorkerOp> {
    if script.raiseAtMark then [Raise] else [MarkRunning] + GenerateOps(script)
  }

  /** The operations of the executor, from the report row as fetched. */
  function ReportOps(s: State, w: Worker, script: Script): seq<WorkerOp> {
    if script.raiseAtFetch then [Raise]
    else if PcOf(WorkerStep(s, w, FetchReport), w).Marking? then [FetchReport] + MarkOps(script)
    else [FetchReport]
  }

  /** One message once its job is claimed: the claim, the execution on s, the release. */
  function Protocol(w: Worker, rid: ReportId, script: Script, s: State): seq<WorkerOp> {
    [Claim(rid)] + (ReportOps(s, w, script) + [Release(script.heartbeatValid)])
  }

  /** s is what the executor met at its first operation. */
  ghost predicate ExecutedOn(log: seq<Action>, from: nat, w: Worker, body: seq<WorkerOp>, s: State) {
    body != [] && TookAt(Step, INITIAL, log, from, Work(w, body[0]), s)
  }

  // ---------------------------------------------------------------------
  // What a worker leaves alone
  // ---------------------------------------------------------------------

  /** The jobs are the same, and the same reports are a success. */
  ghost predicate SameOutcomes(s: State, t: State) {
    t.jobs == s.jobs && forall rid ::
      rid in s.reports && s.reports[rid] == ReportSuccess <==> rid in t.reports && t.reports[rid] == ReportSuccess
  }

  /** None of w's actions in this part of the run, its claim aside, touched a job or made a success. */
  ghost predicate Quiet(log: seq<Action>, from: nat, w: Worker) {
    forall n :: from <= n < |log| && IsBy(log[n], w) && !log[n].op.Claim? ==> QuietAt(log, n)
  }

  ghost predicate QuietAt(log: seq<Action>, n: nat)
    requires n < |log|
  {
    SameOutcomes(Run(INITIAL, log[..n]), Step(Run(INITIAL, log[..n]), log[n]))
  }

  lemma QuietSnoc(log: seq<Action>, a: Action, from: nat, w: Worker)
    requires from <= |log| && Quiet(log, from, w)
    requires IsBy(a, w) && !a.op.Claim? ==> SameOutcomes(Run(INITIAL, log), Step(Run(INITIAL, log), a))
    ensures Quiet(log + [a], from, w)
  {
    hide Run, Step, SameOutcomes;
    var more := log + [a];
    forall n | from <= n < |more| && IsBy(more[n], w) && !more[n].op.Claim? ensures QuietAt(more, n) {
      assert more[..n] == log[..n];
      assert n < |log| ==> QuietAt(log, n);
      assert n == |log| ==> log[..n] == log;
    }
  }

  lemma QuietThen(log: seq<Action>, more: seq<Action>, from: nat, w: Worker)
    requires from <= |log| && log <= more && Quiet(log, from, w) && Quiet(more, |log|, w)
    ensures Quiet(more, from, w)
  {
    hide Run, Step, SameOutcomes;
    forall n | from <= n < |more| && IsBy(more[n], w) && !more[n].op.Claim? ensures QuietAt(more, n) {
      if n < |log| {
        assert more[n] == log[n] && more[..n] == log[..n];
        assert QuietAt(log, n);
      }
    }
  }

  /** No operation of a worker but its claim and its release touches a job or makes a success. */
  lemma MovesAreQuiet(s: State, w: Worker, op: WorkerOp)
    requires Inv(s) && !op.Claim? && !op.Release?
    ensures SameOutcomes(s, WorkerStep(s, w, op))
  {
    var pc := PcOf(s, w);
    assert pc.Marking? || pc.Failing? ==> Active(s, w, pc.rid) && InFlight(s, pc.rid);
  }

  class ReportStore {
    var reports: map<ReportId, ReportStatus>
    var jobs: map<ReportId, Job>
    var snapshot: multiset<ScanRow>
    var workers: map<Worker, Pc>
    ghost var log: seq<Action>

    function View(): State
      reads this
    {
      State(reports, jobs, snapshot, workers)
    }

    function Local(w: Worker): Pc
      reads this
    {
      PcOf(View(), w)
    }

    ghost predicate Valid()
      reads this
    {
      View() == Run(INITIAL, log)
    }

    /** w has done these operations since, or a beginning of them and then crashed. */
    twostate predicate Did(alive: bool, w: Worker, ops: seq<WorkerOp>)
      reads this
    {
      old(log) <= log && Performed(alive, old(OwnOps(log, w)), OwnOps(log, w), ops, Crash)
    }

    /** The step of w that came next. */
    twostate predicate Began(w: Worker, ops: seq<WorkerOp>)
      reads this
    {
      ops != [] && |old(log)| < |log| && log[|old(log)|] == Work(w, ops[0])
    }

    /** The executor worked on what it met in s, or w crashed before it, with at most early done. */
    twostate predicate Executed(alive: bool, w: Worker, early: seq<WorkerOp>, body: seq<WorkerOp>, s: State)
      reads this
    {
      ExecutedOn(log, |old(log)|, w, body, s) || (!alive && BrokeOff(old(OwnOps(log, w)), OwnOps(log, w), early, Crash))
    }

    predicate Claimable(rid: ReportId)
      reads this
    {
      rid in jobs && jobs[rid].state == Pending
    }

    constructor ()
      ensures Valid() && View() == INITIAL && log == []
    {
      reports, jobs, snapshot, workers := map[], map[], multiset{}, map[];
      log := [];
    }

    lemma ValidInv()
      requires Valid()
      ensures Inv(View())
    {
      RunKeeps(INITIAL, log);
    }

    /** The step just taken is recorded. */
    twostate lemma PlayedIsValid(a: Action)
      requires old(Valid()) && View() == Step(old(View()), a) && log == old(log) + [a]
      ensures Valid()
    {
      RunSnoc(Step, INITIAL, old(log), a);
    }

    /** One action of somebody else. */
    method PlayOther(a: Action, ghost w: Worker)
      requires Valid() && !IsBy(a, w)
      modifies this
      ensures Valid() && old(log) <= log && OwnOps(log, w) == old(OwnOps(log, w))
      ensures Local(w) == old(Local(w)) && Quiet(log, |old(log)|, w)
    {
      hide Step, SameOutcomes;
      OtherPcKept(View(), a, w);
      var next := Step(View(), a);
      reports, jobs, snapshot, workers := next.reports, next.jobs, next.snapshot, next.workers;
      OwnSnoc(OpOf(w), log, a);
      QuietSnoc(log, a, |log|, w);
      log := log + [a];
      PlayedIsValid(a);
    }

    /** Any number of steps of the others, and perhaps a crash. */
    method Interfere(w: Worker) returns (alive: bool)
      requires Valid()
      modifies this
      ensures Valid() && Did(alive, w, []) && Quiet(log, |old(log)|, w)
      ensures Local(w) == if alive then old(Local(w)) else Idle
    {
      hide Run, OwnOps, Quiet, Step;
      var schedule: seq<Action> := *;
      NothingIsQuiet(log, w);
      for i := 0 to |schedule|
        invariant Valid() && old(log) <= log && OwnOps(log, w) == old(OwnOps(log, w))
        invariant Local(w) == old(Local(w)) && Quiet(log, |old(log)|, w)
      {
        if !IsBy(schedule[i], w) {
          ghost var before := log;
          PlayOther(schedule[i], w);
          QuietThen(before, log, |old(log)|, w);
        }
      }
      alive := *;
      if !alive {
        ghost var before := log;
        Move(w, Idle, Crash);
        QuietThen(before, log, |old(log)|, w);
        BrokeNow(old(OwnOps(log, w)), Crash);
      }
    }

    /** w goes on to pc, which the step function must agree with; the tables stay. */
    method Move(w: Worker, pc: Pc, ghost op: WorkerOp)
      requires Valid() && !op.Claim? && !op.Release? && WorkerStep(View(), w, op) == Goto(View(), w, pc)
      modifies this`workers, this`log
      ensures Valid() && Local(w) == pc && View() == WorkerStep(old(View()), w, op)
      ensures Quiet(log, |old(log)|, w)
      ensures log == old(log) + [Work(w, op)] && OwnOps(log, w) == old(OwnOps(log, w)) + [op]
    {
      hide Run, WorkerStep, SameOutcomes;
      Record(w, op);
      workers := workers[w := pc];
      PlayedIsValid(Work(w, op));
    }

    /** _mark_status: an UPDATE on its own connection, committed at once. */
    method MarkStatus(w: Worker, status: ReportStatus, pc: Pc, ghost op: WorkerOp)
      requires Valid() && !op.Claim? && !op.Release? && !Local(w).Idle?
      requires WorkerStep(View(), w, op) == Goto(SetStatus(View(), Local(w).rid, status), w, pc)
      modifies this`reports, this`workers, this`log
      ensures Valid() && Local(w) == pc && View() == WorkerStep(old(View()), w, op)
      ensures reports == if old(Local(w)).rid in old(reports) then old(reports)[old(Local(w)).rid := status] else old(reports)
      ensures Quiet(log, |old(log)|, w)
      ensures old(log) <= log && OwnOps(log, w) == old(OwnOps(log, w)) + [op]
    {
      hide Run, WorkerStep, SameOutcomes;
      Record(w, op);
      var rid := Local(w).rid;
      if rid in reports {
        reports := reports[rid := status];
      }
      workers := workers[w := pc];
      PlayedIsValid(Work(w, op));
    }

    /** The log entry of a quiet operation. */
    ghost method Record(w: Worker, op: WorkerOp)
      requires Valid() && !op.Claim? && !op.Release?
      modifies this`log
      ensures log == old(log) + [Work(w, op)] && Quiet(log, |old(log)|, w)
      ensures OwnOps(log, w) == old(OwnOps(log, w)) + [op]
    {
      hide SameOutcomes;
      ValidInv();
      MovesAreQuiet(View(), w, op);
      NothingIsQuiet(log, w);
      QuietSnoc(log, Work(w, op), |log|, w);
      OwnSnoc(OpOf(w), log, Work(w, op));
      log := log + [Work(w, op)];
    }

    /** _enqueue_report: both rows are written, or neither. */
    method EnqueueReport(rid: ReportId) returns (status: ReportStatus)
      requires Valid()
      modifies this
      ensures Valid() && log == old(log) + [Enqueue(rid)]
      ensures rid in reports && reports[rid] == status
      ensures rid in old(reports) && old(reports)[rid] != ReportFailed ==>
        View() == old(View()) && status == old(reports)[rid]
      ensures !(rid in old(reports) && old(reports)[rid] != ReportFailed) ==>
        && status == ReportPending && reports == old(reports)[rid := ReportPending]
        && jobs == old(jobs)[rid := Job(Pending, None, 0)]
        && snapshot == old(snapshot) && workers == old(workers)
    {
      if rid in reports && reports[rid] in {ReportSuccess, ReportRunning, ReportPending} {
        status := reports[rid];
      } else {
        reports := reports[rid := ReportPending];
        jobs := jobs[rid := Job(Pending, None, 0)];
        status := ReportPending;
      }
      log := log + [Enqueue(rid)];
      PlayedIsValid(Enqueue(rid));
    }

    /** claim_job on a report job. */
    method ClaimJob(w: Worker, rid: ReportId) returns (claimed: bool)
      requires Valid() && Local(w).Idle?
      modifies this`jobs, this`workers, this`log
      ensures Valid() && Did(true, w, [Claim(rid)]) && Quiet(log, |old(log)|, w)
      ensures claimed <==> old(Claimable(rid))
      ensures jobs == if claimed then old(jobs)[rid := Job(Leased, Some(w), old(jobs)[rid].attempts + 1)] else old(jobs)
      ensures Local(w) == if claimed then Claimed(rid) else Idle
    {
      claimed := rid in jobs && jobs[rid].state == Pending;
      if claimed {
        jobs := jobs[rid := Job(Leased, Some(w), jobs[rid].attempts + 1)];
        workers := workers[w := Claimed(rid)];
      }
      NothingIsQuiet(log, w);
      QuietSnoc(log, Work(w, Claim(rid)), |log|, w);
      OwnSnoc(OpOf(w), log, Work(w, Claim(rid)));
      log := log + [Work(w, Claim(rid))];
      PlayedIsValid(Work(w, Claim(rid)));
    }

    /** The except branch around the executor: with one attempt it always goes terminal. */
    method HandleException(w: Worker)
      requires Valid()
      requires Local(w).Claimed? || Local(w).Marking? || Local(w).Generating? || Local(w).Failing?
      modifies this`workers, this`log
      ensures Valid() && Did(true, w, [Raise]) && Quiet(log, |old(log)|, w) && log == old(log) + [Work(w, Raise)]
      ensures Local(w) == Releasing(old(Local(w)).rid, FailedTerminal, false)
    {
      Move(w, Releasing(Local(w).rid, FailedTerminal, false), Raise);
    }

    // -------------------------------------------------------------------
    // The executor
    // -------------------------------------------------------------------

    /** run_report_generate_job. */
    method RunReportGenerateJob(w: Worker, script: Script) returns (alive: bool)
      requires Valid() && Local(w).Claimed?
      modifies this
      ensures Valid() && Did(alive, w, ReportOps(old(View()), w, script)) && Quiet(log, |old(log)|, w)
      ensures Began(w, ReportOps(old(View()), w, script))
      ensures Local(w) == if alive then PcAfter(old(View()), w, ReportOps(old(View()), w, script)) else Idle
      ensures alive ==> ReportEnds(old(Local(w)).rid, old(reports), script, Local(w))
    {
      hide Run, OwnOps, Quiet, MarkOps, Play, ReportEnds;
      ReportTable(View(), w, script);
      RunCons(Stepping(w), View(), Raise, []);
      RunCons(Stepping(w), View(), FetchReport, MarkOps(script));
      var rid := Local(w).rid;
      if script.raiseAtFetch {
        HandleException(w);
        return true;
      }
      if rid !in reports {
        Move(w, Releasing(rid, FailedTerminal, false), FetchReport);
        return true;
      }
      if reports[rid] == ReportSuccess {
        Move(w, Releasing(rid, Succeeded, false), FetchReport);
        return true;
      }
      Move(w, Marking(rid), FetchReport);
      ghost var own, mid := OwnOps(log, w), log;
      alive := MarkAndGenerate(w, script);
      QuietThen(mid, log, |old(log)|, w);
      PerformedThen(alive, old(OwnOps(log, w)), own, OwnOps(log, w), [FetchReport], MarkOps(script), Crash);
    }

    /** The running mark, then generation. */
    method MarkAndGenerate(w: Worker, script: Script) returns (alive: bool)
      requires Valid() && Local(w).Marking?
      modifies this
      ensures Valid() && Did(alive, w, MarkOps(script)) && Quiet(log, |old(log)|, w)
      ensures Local(w) == if alive then PcAfter(old(View()), w, MarkOps(script)) else Idle
    {
      hide Run, OwnOps, Quiet, GenerateOps;
      MarkIsLocal(View(), w, script);
      ghost var before, start := OwnOps(log, w), log;
      alive := Interfere(w);
      if !alive {
        BrokeEarly(before, OwnOps(log, w), [], MarkOps(script), Crash);
        return;
      }
      ghost var mid := log;
      if script.raiseAtMark {
        HandleException(w);
        QuietThen(mid, log, |start|, w);
        return;
      }
      MarkStatus(w, ReportRunning, Generating(Local(w).rid), MarkRunning);
      QuietThen(mid, log, |start|, w);
      ghost var own := OwnOps(log, w);
      mid := log;
      GenerateIsLocal(View(), w, script);
      alive := Generate(w, script);
      QuietThen(mid, log, |start|, w);
      PerformedThen(alive, before, own, OwnOps(log, w), [MarkRunning], GenerateOps(script), Crash);
    }

    /** Generation, after the report has been marked running. */
    method Generate(w: Worker, script: Script) returns (alive: bool)
      requires Valid() && Local(w).Generating?
      modifies this
      ensures Valid() && Did(alive, w, GenerateOps(script)) && Quiet(log, |old(log)|, w)
      ensures Local(w) == if alive then PcAfter(old(View()), w, GenerateOps(script)) else Idle
    {
      hide Run, OwnOps, Quiet, Play;
      GenerateIsLocal(View(), w, script);
      ghost var before, start := OwnOps(log, w), log;
      var rid := Local(w).rid;
      alive := Interfere(w);
      if !alive {
        BrokeEarly(before, OwnOps(log, w), [], GenerateOps(script), Crash);
        return;
      }
      ghost var mid := log;
      if script.generationRaises {
        Move(w, Failing(rid), GenerationRaises);
        QuietThen(mid, log, |start|, w);
        ghost var own := OwnOps(log, w);
        mid := log;
        alive := MarkFailure(w, script);
        assert GenerateOps(script) == [GenerationRaises] + [if script.raiseAtMarkFailed then Raise else MarkFailed];
        PerformedThen(alive, before, own, OwnOps(log, w), [GenerationRaises], [if script.raiseAtMarkFailed then Raise else MarkFailed], Crash);
      } else if script.raiseAfterGeneration {
        HandleException(w);
      } else {
        Move(w, Releasing(rid, Succeeded, true), GenerationDone);
      }
      QuietThen(mid, log, |start|, w);
    }

    /** The failed mark on its own connection. */
    method MarkFailure(w: Worker, script: Script) returns (alive: bool)
      requires Valid() && Local(w).Failing?
      modifies this
      ensures Valid() && Did(alive, w, [if script.raiseAtMarkFailed then Raise else MarkFailed]) && Quiet(log, |old(log)|, w)
      ensures Local(w) == if alive then Releasing(old(Local(w)).rid, FailedTerminal, false) else Idle
    {
      hide Run, OwnOps, Quiet;
      ghost var before, start := OwnOps(log, w), log;
      alive := Interfere(w);
      if !alive {
        BrokeEarly(before, OwnOps(log, w), [], [if script.raiseAtMarkFailed then Raise else MarkFailed], Crash);
        return;
      }
      ghost var mid := log;
      if script.raiseAtMarkFailed {
        HandleException(w);
      } else {
        MarkStatus(w, ReportFailed, Releasing(Local(w).rid, FailedTerminal, false), MarkFailed);
      }
      QuietThen(mid, log, |start|, w);
    }

    // -------------------------------------------------------------------
    // One message
    // -------------------------------------------------------------------

    /** release_job WHERE lease_owner = worker_id, the heartbeat check, then commit or rollback. */
    method Commit(w: Worker, heartbeatValid: bool) returns (committed: bool)
      requires Valid() && Local(w).Releasing?
      modifies this`reports, this`jobs, this`workers, this`log
      ensures Valid() && Did(true, w, [Release(heartbeatValid)]) && Local(w).Idle?
      ensures View() == WorkerStep(old(View()), w, Release(heartbeatValid))
      ensures committed <==> old(Owns(View(), w, Local(w).rid)) && heartbeatValid
      ensures committed ==> Settled(View(), old(Local(w)).rid)
      ensures committed ==> jobs == old(jobs)[old(Local(w)).rid := Job(old(Local(w)).outcome, None, old(jobs)[old(Local(w)).rid].attempts)]
      ensures committed ==> reports == if old(Local(w)).success then old(reports)[old(Local(w)).rid := ReportSuccess] else old(reports)
      ensures !committed ==> reports == old(reports) && jobs == old(jobs) && Quiet(log, |old(log)|, w)
    {
      hide Run;
      ValidInv();
      if Owns(View(), w, Local(w).rid) {
        CommitSettles(View(), w);
      }
      var pc := Local(w);
      committed := pc.rid in jobs && jobs[pc.rid].owner == Some(w) && heartbeatValid;
      workers := workers[w := Idle];
      if committed {
        jobs := jobs[pc.rid := jobs[pc.rid].(state := pc.outcome, owner := None)];
        if pc.success && pc.rid in reports {
          reports := reports[pc.rid := ReportSuccess];
        }
      }
      NothingIsQuiet(log, w);
      if !committed {
        QuietSnoc(log, Work(w, Release(heartbeatValid)), |log|, w);
      }
      OwnSnoc(OpOf(w), log, Work(w, Release(heartbeatValid)));
      log := log + [Work(w, Release(heartbeatValid))];
      PlayedIsValid(Work(w, Release(heartbeatValid)));
    }

    /** A claimed report job up to its commit. */
    method RunClaimed(w: Worker, script: Script)
        returns (alive: bool, committed: bool, ghost s: State, ghost ops: seq<WorkerOp>)
      requires Valid() && Local(w).Claimed?
      modifies this
      ensures Valid() && Did(alive, w, ops) && Local(w).Idle? && (committed ==> alive)
      ensures ops == ReportOps(s, w, script) + [Release(script.heartbeatValid)]
      ensures Executed(alive, w, [], ReportOps(s, w, script), s)
      ensures committed ==> Concluded(View(), old(Local(w)).rid, s.reports, script)
      ensures if committed then Settled(View(), old(Local(w)).rid) else Quiet(log, |old(log)|, w)
    {
      hide Play, OwnOps, Quiet, ReportOps, Settled, ReportEnds;
      ghost var before, start := OwnOps(log, w), log;
      var rid := Local(w).rid;
      committed := false;
      alive := Interfere(w);
      s := View();
      ghost var body, last := ReportOps(s, w, script), [Release(script.heartbeatValid)];
      ops := body + last;
      if !alive {
        BrokeEarly(before, OwnOps(log, w), [], ops, Crash);
        return;
      }
      ghost var mid := log;
      ReportReleases(View(), w, script);
      alive := RunReportGenerateJob(w, script);
      QuietThen(mid, log, |start|, w);
      JustTook(Step, INITIAL, mid, log, |start|, Work(w, body[0]), s);
      if !alive {
        BrokeEarly(before, OwnOps(log, w), body, last, Crash);
        return;
      }
      ghost var own := OwnOps(log, w);
      mid := log;
      alive := Interfere(w);
      QuietThen(mid, log, |start|, w);
      TookStays(Step, INITIAL, mid, log, |start|, |start|, Work(w, body[0]), s);
      if !alive {
        BrokeEarly(own, OwnOps(log, w), [], last, Crash);
        PerformedThen(false, before, own, OwnOps(log, w), body, last, Crash);
        return;
      }
      mid := log;
      committed := Commit(w, script.heartbeatValid);
      TookStays(Step, INITIAL, mid, log, |start|, |start|, Work(w, body[0]), s);
      PerformedThen(true, before, own, OwnOps(log, w), body, last, Crash);
      if !committed {
        QuietThen(mid, log, |start|, w);
      }
    }

    /**
     One stream message up to the commit that its ACK waits for, with everybody else at work and a
     crash possible between any two calls.  A commit leaves report and job in agreement; without
     one this worker has touched no job after its claim and made no report a success.  The executor
     works on the state it met at its first operation.
     */
    method ProcessMessage(w: Worker, rid: ReportId, script: Script)
        returns (alive: bool, committed: bool, ghost s: State, ghost ops: seq<WorkerOp>)
      requires Valid() && Local(w).Idle?
      modifies this
      ensures Valid() && Did(alive, w, ops) && Local(w).Idle?
      ensures if old(Claimable(rid)) then ops == Protocol(w, rid, script, s) else !committed && ops == [Claim(rid)]
      ensures old(Claimable(rid)) ==> Executed(alive, w, [Claim(rid)], ReportOps(s, w, script), s)
      ensures committed ==> Concluded(View(), rid, s.reports, script)
      ensures if committed then alive && Settled(View(), rid) else Quiet(log, |old(log)|, w)
    {
      hide Run, OwnOps, Quiet, ReportOps, Settled, Concluded;
      ghost var before, start := OwnOps(log, w), log;
      var claimed := ClaimJob(w, rid);
      if !claimed {
        return true, false, View(), [Claim(rid)];
      }
      ghost var own, mid := OwnOps(log, w), log;
      alive, committed, s, ops := RunClaimed(w, script);
      if !committed {
        QuietThen(mid, log, |start|, w);
      }
      PerformedThen(alive, before, own, OwnOps(log, w), [Claim(rid)], ops, Crash);
      ops := [Claim(rid)] + ops;
      ghost var body := ReportOps(s, w, script);
      if ExecutedOn(log, |mid|, w, body, s) {
        TookStays(Step, INITIAL, log, log, |mid|, |start|, Work(w, body[0]), s);
      } else {
        PerformedThen(false, before, own, OwnOps(log, w), [Claim(rid)], [], Crash);
        assert [Claim(rid)] + [] == [Claim(rid)];
      }
    }
  }

  /** The job is finished and the report agrees with it. */
  predicate Settled(s: State, rid: ReportId) {
    rid in s.jobs && s.jobs[rid].state in {Succeeded, FailedTerminal} && Agree(s, rid)
  }

  lemma CommitSettles(s: State, w: Worker)
    requires Inv(s) && PcOf(s, w).Releasing? && Owns(s, w, PcOf(s, w).rid)
    ensures PcOf(s, w).rid in s.reports
    ensures Settled(ReleaseStep(s, w, PcOf(s, w), true), PcOf(s, w).rid)
  {
    var pc := PcOf(s, w);
    assert ReleaseOk(s, w) && JobOk(s, pc.rid);
    assert pc.success ==> Active(s, w, pc.rid) && InFlight(s, pc.rid);
  }

  /** Generation depends on nothing that others can change. */
  lemma GenerateIsLocal(s: State, w: Worker, script: Script)
    requires PcOf(s, w).Generating?
    ensures PcAfter(s, w, GenerateOps(script)) ==
      if script.generationRaises || script.raiseAfterGeneration then Releasing(PcOf(s, w).rid, FailedTerminal, false)
      else Releasing(PcOf(s, w).rid, Succeeded, true)
  {
    var ops := GenerateOps(script);
    if script.generationRaises {
      assert ops == [GenerationRaises] + [ops[1]];
      RunCons(Stepping(w), s, GenerationRaises, [ops[1]]);
      RunCons(Stepping(w), WorkerStep(s, w, GenerationRaises), ops[1], []);
    } else {
      RunCons(Stepping(w), s, ops[0], []);
    }
  }

  lemma MarkIsLocal(s: State, w: Worker, script: Script)
    requires PcOf(s, w).Marking?
    ensures PcAfter(s, w, MarkOps(script)) ==
      if script.raiseAtMark || script.generationRaises || script.raiseAfterGeneration then Releasing(PcOf(s, w).rid, FailedTerminal, false)
      else Releasing(PcOf(s, w).rid, Succeeded, true)
  {
    RunCons(Stepping(w), s, Raise, []);
    RunCons(Stepping(w), s, MarkRunning, GenerateOps(script));
    GenerateIsLocal(WorkerStep(s, w, MarkRunning), w, script);
  }

  /** The executor, by the row it fetches: a success is buffered, anything that raises is terminal at once. */
  predicate ReportEnds(rid: ReportId, reports: map<ReportId, ReportStatus>, script: Script, after: Pc) {
    if script.raiseAtFetch || rid !in reports then after == Releasing(rid, FailedTerminal, false)
    else if reports[rid] == ReportSuccess then after == Releasing(rid, Succeeded, false)
    else if script.raiseAtMark || script.generationRaises || script.raiseAfterGeneration then after == Releasing(rid, FailedTerminal, false)
    else after == Releasing(rid, Succeeded, true)
  }

  /** The committed job state is the one that the executor came to on these rows, and its success is in the report. */
  ghost predicate Concluded(s: State, rid: ReportId, reports: map<ReportId, ReportStatus>, script: Script) {
    exists after :: ReportEnds(rid, reports, script, after) && after.Releasing? && rid in s.jobs && s.jobs[rid].state == after.outcome
      && (after.success ==> rid in s.reports && s.reports[rid] == ReportSuccess)
  }

  lemma ReportTable(s: State, w: Worker, script: Script)
    requires PcOf(s, w).Claimed?
    ensures ReportEnds(PcOf(s, w).rid, s.reports, script, PcAfter(s, w, ReportOps(s, w, script)))
  {
    hide Play;
    RunCons(Stepping(w), s, Raise, []);
    RunCons(Stepping(w), s, FetchReport, MarkOps(script));
    if PcOf(WorkerStep(s, w, FetchReport), w).Marking? {
      MarkIsLocal(WorkerStep(s, w, FetchReport), w, script);
    }
    hide MarkOps;
  }

  /** What is written before and after generation: running, then failed if it raises. */
  lemma MarksTable(s: State, w: Worker)
    ensures PcOf(s, w).Marking? ==> WorkerStep(s, w, MarkRunning) == Goto(SetStatus(s, PcOf(s, w).rid, ReportRunning), w, Generating(PcOf(s, w).rid))
    ensures PcOf(s, w).Failing? ==> WorkerStep(s, w, MarkFailed) == Goto(SetStatus(s, PcOf(s, w).rid, ReportFailed), w, Releasing(PcOf(s, w).rid, FailedTerminal, false))
    ensures forall rid, status :: SetStatus(s, rid, status).reports == if rid in s.reports then s.reports[rid := status] else s.reports
  {
  }

  /** The executor ends with a release of its own job. */
  lemma ReportReleases(s: State, w: Worker, script: Script)
    requires PcOf(s, w).Claimed?
    ensures PcAfter(s, w, ReportOps(s, w, script)).Releasing?
    ensures PcAfter(s, w, ReportOps(s, w, script)).rid == PcOf(s, w).rid
  {
    hide Play;
    RunCons(Stepping(w), s, Raise, []);
    RunCons(Stepping(w), s, FetchReport, MarkOps(script));
    if PcOf(WorkerStep(s, w, FetchReport), w).Marking? {
      MarkIsLocal(WorkerStep(s, w, FetchReport), w, script);
    }
  }

  lemma NothingIsQuiet(log: seq<Action>, w: Worker)
    ensures Quiet(log, |log|, w)
  {
  }
}
