/** When a report and its job agree, over every run. */
module ReportTheorems {
  import opened Options
  import opened Reports
  import opened Runs

  /** w may still write the report row: it has not finished with this claim. */
  predicate Active(s: State, w: Worker, rid: ReportId) {
    var pc := PcOf(s, w);
    !pc.Idle? && pc.rid == rid && (pc.Releasing? ==> pc.success)
  }

  ghost predicate OneActive(s: State) {
    forall v, w, rid :: Active(s, v, rid) && Active(s, w, rid) ==> v == w
  }

  predicate InFlight(s: State, rid: ReportId) {
    rid in s.reports && (s.reports[rid] == ReportPending || s.reports[rid] == ReportRunning)
  }

  ghost predicate ActiveInFlight(s: State) {
    forall w, rid :: Active(s, w, rid) ==> InFlight(s, rid)
  }

  ghost predicate JobOk(s: State, rid: ReportId) {
    && (rid in s.jobs <==> rid in s.reports)
    && (rid in s.jobs ==>
      var job := s.jobs[rid];
      && (job.state == Pending ==>
            s.reports[rid] == ReportPending && forall w :: !Active(s, w, rid))
      && (job.owner.Some? ==> job.state == Leased)
      && (job.state == Leased ==> job.attempts >= MAX_ATTEMPTS)
      && (job.state == Succeeded ==> s.reports[rid] == ReportSuccess)
      && (s.reports[rid] == ReportSuccess ==> job.state == Succeeded || job.state == FailedTerminal))
  }

  ghost predicate ReleaseOk(s: State, w: Worker) {
    var pc := PcOf(s, w);
    pc.Releasing? ==>
      && (pc.outcome == FailedTerminal || pc.outcome == Succeeded)
      && (pc.success ==> pc.outcome == Succeeded)
      && (pc.outcome == Succeeded && !pc.success ==> pc.rid in s.reports && s.reports[pc.rid] == ReportSuccess)
  }

  ghost predicate Inv(s: State) {
    && OneActive(s)
    && ActiveInFlight(s)
    && (forall rid :: JobOk(s, rid))
    && (forall w :: ReleaseOk(s, w))
    && (forall row :: row in s.snapshot ==> row.exhausted)
  }

  lemma EnqueueKeeps(s: State, rid: ReportId)
    requires Inv(s)
    ensures Inv(EnqueueStep(s, rid))
  {
    var t := EnqueueStep(s, rid);
    assert forall w, r :: Active(t, w, r) <==> Active(s, w, r);
    forall r ensures JobOk(t, r) { assert JobOk(s, r); }
    forall w ensures ReleaseOk(t, w) { assert ReleaseOk(s, w); }
  }

  lemma ScanKeeps(s: State, expired: set<ReportId>)
    requires Inv(s)
    ensures Inv(ScanStep(s, expired))
  {
    var t := ScanStep(s, expired);
    assert forall w, r :: Active(t, w, r) <==> Active(s, w, r);
    forall r ensures JobOk(t, r) { assert JobOk(s, r); }
    forall w ensures ReleaseOk(t, w) { assert ReleaseOk(s, w); }
    forall row | row in t.snapshot ensures row.exhausted {
      assert JobOk(s, row.rid);
    }
  }

  lemma ReclaimKeeps(s: State, row: ScanRow)
    requires Inv(s)
    ensures Inv(ReclaimStep(s, row))
  {
    var t := ReclaimStep(s, row);
    assert forall w, r :: Active(t, w, r) <==> Active(s, w, r);
    forall r ensures JobOk(t, r) { assert JobOk(s, r); }
    forall w ensures ReleaseOk(t, w) { assert ReleaseOk(s, w); }
    assert forall x :: x in t.snapshot ==> x in s.snapshot;
  }

  /** A program counter moves on, without making the worker active again. */
  lemma MoveKeeps(s: State, w: Worker, pc: Pc)
    requires Inv(s) && ReleaseOk(Goto(s, w, pc), w)
    requires forall rid :: Active(Goto(s, w, pc), w, rid) ==> Active(s, w, rid)
    ensures Inv(Goto(s, w, pc))
  {
    var t := Goto(s, w, pc);
    assert forall v, r :: Active(t, v, r) ==> Active(s, v, r);
    forall r ensures JobOk(t, r) { assert JobOk(s, r); }
    forall v ensures ReleaseOk(t, v) { assert ReleaseOk(s, v); }
  }

  /** _mark_status by the one active worker of the report. */
  lemma MarkKeeps(s: State, w: Worker, rid: ReportId, status: ReportStatus, pc: Pc)
    requires Inv(s) && Active(s, w, rid)
    requires (status == ReportRunning && pc == Generating(rid)) ||
             (status == ReportFailed && pc == Releasing(rid, FailedTerminal, false))
    ensures Inv(Goto(SetStatus(s, rid, status), w, pc))
  {
    var t := Goto(SetStatus(s, rid, status), w, pc);
    assert InFlight(s, rid) && JobOk(s, rid);
    assert forall v, r :: Active(t, v, r) ==> Active(s, v, r);
    forall r ensures JobOk(t, r) { assert JobOk(s, r); }
    forall v ensures ReleaseOk(t, v) { assert ReleaseOk(s, v); }
  }

  lemma ClaimKeeps(s: State, w: Worker, rid: ReportId)
    requires Inv(s) && PcOf(s, w).Idle?
    ensures Inv(ClaimStep(s, w, rid))
  {
    var t := ClaimStep(s, w, rid);
    assert JobOk(s, rid);
    if rid in s.jobs && s.jobs[rid].state == Pending {
      assert forall v, r :: Active(t, v, r) <==> (Active(s, v, r) || (v == w && r == rid));
      forall r ensures JobOk(t, r) { assert JobOk(s, r); }
      forall v ensures ReleaseOk(t, v) { assert ReleaseOk(s, v); }
    }
  }

  lemma ReleaseKeeps(s: State, w: Worker, valid: bool)
    requires Inv(s) && PcOf(s, w).Releasing?
    ensures Inv(ReleaseStep(s, w, PcOf(s, w), valid))
  {
    var pc := PcOf(s, w);
    assert ReleaseOk(s, w) && JobOk(s, pc.rid);
    if Owns(s, w, pc.rid) && valid {
      var t := ReleaseStep(s, w, pc, valid);
      assert pc.success ==> Active(s, w, pc.rid) && InFlight(s, pc.rid);
      assert forall v, r :: Active(t, v, r) ==> Active(s, v, r);
      forall r ensures JobOk(t, r) { assert JobOk(s, r); }
      forall v ensures ReleaseOk(t, v) { assert ReleaseOk(s, v); }
    } else {
      MoveKeeps(s, w, Idle);
    }
  }

  lemma WorkKeeps(s: State, w: Worker, op: WorkerOp)
    requires Inv(s)
    ensures Inv(WorkerStep(s, w, op))
  {
    var pc := PcOf(s, w);
    var t := WorkerStep(s, w, op);
    if t != s {
      match op
      case Claim(rid) => ClaimKeeps(s, w, rid);
      case FetchReport => MoveKeeps(s, w, PcOf(t, w));
      case MarkRunning =>
        assert Active(s, w, pc.rid);
        MarkKeeps(s, w, pc.rid, ReportRunning, Generating(pc.rid));
      case GenerationDone => MoveKeeps(s, w, PcOf(t, w));
      case GenerationRaises => MoveKeeps(s, w, PcOf(t, w));
      case MarkFailed =>
        assert Active(s, w, pc.rid);
        MarkKeeps(s, w, pc.rid, ReportFailed, Releasing(pc.rid, FailedTerminal, false));
      case Raise => MoveKeeps(s, w, PcOf(t, w));
      case Release(valid) => ReleaseKeeps(s, w, valid);
      case Crash => MoveKeeps(s, w, Idle);
    }
  }

  lemma StepKeeps(s: State, a: Action)
    requires Inv(s)
    ensures Inv(Step(s, a))
  {
    match a
    case Enqueue(rid) => EnqueueKeeps(s, rid);
    case Scan(expired) => ScanKeeps(s, expired);
    case Reclaim(row) => ReclaimKeeps(s, row);
    case Work(w, op) => WorkKeeps(s, w, op);
  }

  lemma {:induction false} RunKeeps(s: State, actions: seq<Action>)
    requires Inv(s)
    ensures Inv(Run(s, actions))
    decreases |actions|
  {
    if actions != [] {
      StepKeeps(s, actions[0]);
      RunKeeps(Step(s, actions[0]), actions[1..]);
    }
  }

  // ---------------------------------------------------------------------
  // Report and job agree exactly when no stale reclaim hit a finished job
  // ---------------------------------------------------------------------

  /** The report is a success exactly when its job row says succeeded. */
  predicate Agree(s: State, rid: ReportId) {
    rid in s.reports && s.reports[rid] == ReportSuccess <==> rid in s.jobs && s.jobs[rid].state == Succeeded
  }

  /** A reclaimer row selected earlier is written over a job that has succeeded since. */
  predicate Overwrites(s: State, a: Action, rid: ReportId) {
    a.Reclaim? && a.row in s.snapshot && a.row.rid == rid && rid in s.jobs && s.jobs[rid].state == Succeeded
  }

  predicate OverwrittenDuring(s: State, actions: seq<Action>, rid: ReportId)
    decreases |actions|
  {
    actions != [] &&
    (Overwrites(s, actions[0], rid) || OverwrittenDuring(Step(s, actions[0]), actions[1..], rid))
  }

  /** What one worker step does to one report and job. */
  lemma WorkOutcome(s: State, w: Worker, op: WorkerOp, rid: ReportId)
    requires Inv(s)
    ensures Agree(WorkerStep(s, w, op), rid) <==> Agree(s, rid)
    ensures rid in s.reports && s.reports[rid] == ReportSuccess ==>
      rid in WorkerStep(s, w, op).reports && WorkerStep(s, w, op).reports[rid] == ReportSuccess
  {
    var pc := PcOf(s, w);
    assert JobOk(s, rid) && ReleaseOk(s, w);
    if !pc.Idle? {
      assert Active(s, w, pc.rid) ==> InFlight(s, pc.rid);
      assert JobOk(s, pc.rid);
    }
    match op
    case Claim(r) => assert JobOk(s, r);
    case FetchReport =>
    case MarkRunning =>
    case GenerationDone =>
    case GenerationRaises =>
    case MarkFailed =>
    case Raise =>
    case Crash =>
    case Release(valid) => if pc.Releasing? { ReleaseOutcome(s, w, valid, rid); }
  }

  lemma ReleaseOutcome(s: State, w: Worker, valid: bool, rid: ReportId)
    requires Inv(s) && PcOf(s, w).Releasing?
    ensures var t := ReleaseStep(s, w, PcOf(s, w), valid);
      && (Agree(t, rid) <==> Agree(s, rid))
      && (rid in s.reports && s.reports[rid] == ReportSuccess ==> rid in t.reports && t.reports[rid] == ReportSuccess)
  {
    var pc := PcOf(s, w);
    assert JobOk(s, rid) && ReleaseOk(s, w) && JobOk(s, pc.rid);
    assert pc.success ==> Active(s, w, pc.rid) && InFlight(s, pc.rid);
  }

  lemma StepOutcome(s: State, a: Action, rid: ReportId)
    requires Inv(s)
    ensures Agree(Step(s, a), rid) <==> Agree(s, rid) && !Overwrites(s, a, rid)
    ensures rid in s.reports && s.reports[rid] == ReportSuccess ==>
      rid in Step(s, a).reports && Step(s, a).reports[rid] == ReportSuccess
  {
    match a
    case Enqueue(r) => EnqueueOutcome(s, r, rid);
    case Scan(_) =>
    case Reclaim(row) => ReclaimOutcome(s, row, rid);
    case Work(w, op) =>
      hide WorkerStep, Inv;
      WorkOutcome(s, w, op, rid);
  }

  lemma EnqueueOutcome(s: State, r: ReportId, rid: ReportId)
    requires Inv(s)
    ensures Agree(EnqueueStep(s, r), rid) <==> Agree(s, rid)
    ensures rid in s.reports && s.reports[rid] == ReportSuccess ==>
      rid in EnqueueStep(s, r).reports && EnqueueStep(s, r).reports[rid] == ReportSuccess
  {
    assert JobOk(s, r) && JobOk(s, rid);
  }

  lemma ReclaimOutcome(s: State, row: ScanRow, rid: ReportId)
    requires Inv(s)
    ensures Agree(ReclaimStep(s, row), rid) <==> Agree(s, rid) && !Overwrites(s, Reclaim(row), rid)
    ensures ReclaimStep(s, row).reports == s.reports
  {
    assert JobOk(s, rid);
    assert row in s.snapshot ==> row.exhausted;
  }

  lemma {:induction false} AgreeFrom(s: State, actions: seq<Action>, rid: ReportId)
    requires Inv(s)
    ensures Agree(Run(s, actions), rid) <==> Agree(s, rid) && !OverwrittenDuring(s, actions, rid)
    decreases |actions|
  {
    if actions != [] {
      StepKeeps(s, actions[0]);
      StepOutcome(s, actions[0], rid);
      AgreeFrom(Step(s, actions[0]), actions[1..], rid);
    }
  }

  /**
   In every run, a report is a success exactly when its job has succeeded, if and
   only if no reclaimer update of the run overwrote the job after it succeeded.
   */
  lemma ReportAgreesWithJobExactly(actions: seq<Action>, rid: ReportId)
    ensures Agree(Run(INITIAL, actions), rid) <==> !OverwrittenDuring(INITIAL, actions, rid)
  {
    AgreeFrom(INITIAL, actions, rid);
  }

  /** One direction holds in every run, races included: a succeeded job has its report. */
  lemma SucceededJobHasReport(actions: seq<Action>, rid: ReportId)
    requires var s := Run(INITIAL, actions); rid in s.jobs && s.jobs[rid].state == Succeeded
    ensures var s := Run(INITIAL, actions); rid in s.reports && s.reports[rid] == ReportSuccess
  {
    RunKeeps(INITIAL, actions);
    assert JobOk(Run(INITIAL, actions), rid);
  }

  lemma {:induction false} SuccessStays(s: State, actions: seq<Action>, rid: ReportId)
    requires Inv(s) && rid in s.reports && s.reports[rid] == ReportSuccess
    ensures rid in Run(s, actions).reports && Run(s, actions).reports[rid] == ReportSuccess
    decreases |actions|
  {
    if actions != [] {
      StepKeeps(s, actions[0]);
      StepOutcome(s, actions[0], rid);
      SuccessStays(Step(s, actions[0]), actions[1..], rid);
    }
  }

  /** A report that is a success stays one: no stale worker and no re-enqueue undoes it. */
  lemma SuccessIsForever(before: seq<Action>, after: seq<Action>, rid: ReportId)
    requires var s := Run(INITIAL, before); rid in s.reports && s.reports[rid] == ReportSuccess
    ensures var t := Run(INITIAL, before + after); rid in t.reports && t.reports[rid] == ReportSuccess
  {
    RunKeeps(INITIAL, before);
    RunAppend(Step, INITIAL, before, after);
    SuccessStays(Run(INITIAL, before), after, rid);
  }

  // ---------------------------------------------------------------------
  // Losing the lease
  // ---------------------------------------------------------------------

  /** The job went terminal without success, and the report does not say success. */
  predicate LostOut(s: State, rid: ReportId) {
    rid in s.jobs && s.jobs[rid].state == FailedTerminal && s.jobs[rid].owner.None?
    && rid in s.reports && s.reports[rid] != ReportSuccess
  }

  lemma LostOutStep(s: State, a: Action, rid: ReportId)
    requires Inv(s) && LostOut(s, rid) && a != Enqueue(rid)
    ensures LostOut(Step(s, a), rid)
  {
  }

  /**
   Once a worker's lease is taken and the job failed, the report never becomes a
   success by that worker or any other, until somebody enqueues it again.
   */
  lemma {:induction false} LostLeaseLeavesReportUnsuccessful(s: State, actions: seq<Action>, rid: ReportId)
    requires Inv(s) && LostOut(s, rid)
    requires forall i :: 0 <= i < |actions| ==> actions[i] != Enqueue(rid)
    ensures LostOut(Run(s, actions), rid)
    decreases |actions|
  {
    if actions != [] {
      StepKeeps(s, actions[0]);
      LostOutStep(s, actions[0], rid);
      LostLeaseLeavesReportUnsuccessful(Step(s, actions[0]), actions[1..], rid);
    }
  }

  // ---------------------------------------------------------------------
  // Which reports in flight can still be settled
  // ---------------------------------------------------------------------

  /** w may still write the report row: when it is about to commit, it must own the lease. */
  predicate CanWrite(s: State, w: Worker, rid: ReportId) {
    Active(s, w, rid) && (PcOf(s, w).Releasing? ==> Owns(s, w, rid))
  }

  /** Somebody can claim the job, or somebody is at work on it. */
  ghost predicate Served(s: State, rid: ReportId) {
    (rid in s.jobs && s.jobs[rid].state == Pending) || exists w :: CanWrite(s, w, rid)
  }

  /** Pending or running, with no worker on it and none to come. */
  ghost predicate Stranded(s: State, rid: ReportId) {
    InFlight(s, rid) && !Served(s, rid)
  }

  lemma StrandedWork(s: State, v: Worker, op: WorkerOp, rid: ReportId)
    requires Inv(s) && Stranded(s, rid)
    ensures InFlight(WorkerStep(s, v, op), rid)
    ensures rid in WorkerStep(s, v, op).jobs && WorkerStep(s, v, op).jobs[rid].state != Pending
    ensures !CanWrite(WorkerStep(s, v, op), v, rid)
    ensures forall w :: Owns(WorkerStep(s, v, op), w, rid) ==> Owns(s, w, rid)
  {
    assert JobOk(s, rid) && ReleaseOk(s, v) && !CanWrite(s, v, rid);
    match op
    case Claim(r) =>
    case Release(valid) =>
    case FetchReport =>
    case MarkRunning =>
    case GenerationDone =>
    case GenerationRaises =>
    case MarkFailed =>
    case Raise =>
    case Crash =>
  }

  /** No action but w's own moves w. */
  lemma OtherPcKept(s: State, a: Action, w: Worker)
    requires !(a.Work? && a.w == w)
    ensures PcOf(Step(s, a), w) == PcOf(s, w)
  {
  }

  lemma StrandedTables(s: State, a: Action, rid: ReportId)
    requires Inv(s) && Stranded(s, rid) && !a.Work?
    ensures InFlight(Step(s, a), rid)
    ensures rid in Step(s, a).jobs && Step(s, a).jobs[rid].state != Pending
    ensures forall w :: Owns(Step(s, a), w, rid) ==> Owns(s, w, rid)
  {
    assert JobOk(s, rid);
    match a
    case Enqueue(_) =>
    case Scan(_) =>
    case Reclaim(row) => assert row in s.snapshot ==> row.exhausted;
  }

  lemma StrandedStep(s: State, a: Action, rid: ReportId)
    requires Inv(s) && Stranded(s, rid)
    ensures Stranded(Step(s, a), rid)
  {
    if a.Work? {
      StrandedWork(s, a.w, a.op, rid);
    } else {
      StrandedTables(s, a, rid);
    }
    var t := Step(s, a);
    forall w ensures !CanWrite(t, w, rid) {
      assert !CanWrite(s, w, rid);
      if !(a.Work? && a.w == w) {
        OtherPcKept(s, a, w);
        hide Step, WorkerStep, Inv;
      }
    }
  }

  /**
   A stranded report stays so in every run: enqueueing it again is refused,
   because pending and running count as in flight.
   */
  lemma {:induction false} StrandedForever(s: State, actions: seq<Action>, rid: ReportId)
    requires Inv(s) && Stranded(s, rid)
    ensures Stranded(Run(s, actions), rid)
    decreases |actions|
  {
    if actions != [] {
      StepKeeps(s, actions[0]);
      StrandedStep(s, actions[0], rid);
      StrandedForever(Step(s, actions[0]), actions[1..], rid);
    }
  }

  function Distance(pc: Pc): nat {
    match pc
    case Claimed(_) => 4
    case Marking(_) => 3
    case Generating(_) => 2
    case Failing(_) => 1
    case _ => 0
  }

  /** What a worker that may write does next so as to settle the report. */
  function NextOp(pc: Pc): WorkerOp {
    match pc
    case Claimed(_) => FetchReport
    case Marking(_) => MarkRunning
    case Generating(_) => GenerationRaises
    case Failing(_) => MarkFailed
    case _ => Release(true)
  }

  lemma NextSettles(s: State, w: Worker, rid: ReportId)
    requires Inv(s) && InFlight(s, rid) && CanWrite(s, w, rid)
    ensures var t := WorkerStep(s, w, NextOp(PcOf(s, w)));
      !InFlight(t, rid) || (CanWrite(t, w, rid) && Distance(PcOf(t, w)) < Distance(PcOf(s, w)))
  {
  }

  lemma {:induction false} Finish(s: State, w: Worker, rid: ReportId) returns (actions: seq<Action>)
    requires Inv(s) && InFlight(s, rid) && CanWrite(s, w, rid)
    ensures !InFlight(Run(s, actions), rid)
    decreases Distance(PcOf(s, w))
  {
    hide WorkerStep, Inv, CanWrite, InFlight, Distance, NextOp;
    var next := Work(w, NextOp(PcOf(s, w)));
    NextSettles(s, w, rid);
    StepKeeps(s, next);
    var rest := [];
    if InFlight(Step(s, next), rid) {
      rest := Finish(Step(s, next), w, rid);
    }
    actions := [next] + rest;
    RunCons(Step, s, next, rest);
  }

  /** A worker that is not at work on anything. */
  lemma IdleWorker(s: State) returns (w: Worker)
    ensures PcOf(s, w).Idle?
  {
    w := Above(s.workers.Keys);
  }

  lemma {:induction false} Above(used: set<Worker>) returns (w: Worker)
    ensures forall v :: v in used ==> v < w
  {
    if used == {} {
      w := 0;
    } else {
      var u :| u in used;
      var most := Above(used - {u});
      w := if u < most then most else u + 1;
      assert used == (used - {u}) + {u};
    }
  }

  /**
   A pending or running report can still be settled exactly when its job is waiting to
   be claimed or a worker that may write it is at work; otherwise no run ever settles it.
   */
  lemma SettlesIffServed(s: State, rid: ReportId)
    requires Inv(s) && InFlight(s, rid)
    ensures (exists actions :: !InFlight(Run(s, actions), rid)) <==> Served(s, rid)
  {
    if Served(s, rid) {
      if rid in s.jobs && s.jobs[rid].state == Pending {
        var w := IdleWorker(s);
        StepKeeps(s, Work(w, Claim(rid)));
        var rest := Finish(Step(s, Work(w, Claim(rid))), w, rid);
        RunCons(Step, s, Work(w, Claim(rid)), rest);
        assert !InFlight(Run(s, [Work(w, Claim(rid))] + rest), rid);
      } else {
        var w :| CanWrite(s, w, rid);
        var actions := Finish(s, w, rid);
      }
    } else {
      forall actions ensures InFlight(Run(s, actions), rid) {
        StrandedForever(s, actions, rid);
      }
    }
  }

  // ---------------------------------------------------------------------
  // Both situations occur
  // ---------------------------------------------------------------------

  const SELECTED: seq<Action> := [Enqueue(0), Work(0, Claim(0)), Scan({0}), Work(0, FetchReport)]

  /** Worker 0 holds report 0, and the reclaimer has selected its job. */
  const HALFWAY := State(map[0 := ReportPending], map[0 := Job(Leased, Some(0), 1)],
                         multiset{ScanRow(0, true)}, map[0 := Marking(0)])

  lemma SelectedState()
    ensures Run(INITIAL, SELECTED) == HALFWAY
  {
    var s2 := Step(Step(INITIAL, SELECTED[0]), SELECTED[1]);
    assert s2 == State(map[0 := ReportPending], map[0 := Job(Leased, Some(0), 1)], multiset{}, map[0 := Claimed(0)]);
    var expired := {0};
    assert (set r | r in expired && r in s2.jobs && s2.jobs[r].state == Leased ::
      ScanRow(r, s2.jobs[r].attempts >= MAX_ATTEMPTS)) == {ScanRow(0, true)};
    var s3 := Step(s2, SELECTED[2]);
    assert s3 == s2.(snapshot := multiset{ScanRow(0, true)});
    assert Step(s3, SELECTED[3]) == HALFWAY;
    UnfoldFour(Step, INITIAL, SELECTED);
  }

  const COMMIT_THEN_RECLAIM: seq<Action> :=
    [Work(0, MarkRunning), Work(0, GenerationDone), Work(0, Release(true)), Reclaim(ScanRow(0, true))]

  lemma CommitThenReclaim()
    ensures Run(HALFWAY, COMMIT_THEN_RECLAIM) ==
      State(map[0 := ReportSuccess], map[0 := Job(FailedTerminal, None, 1)], multiset{}, map[0 := Idle])
  {
    var s1 := Step(HALFWAY, COMMIT_THEN_RECLAIM[0]);
    assert s1 == HALFWAY.(reports := map[0 := ReportRunning], workers := map[0 := Generating(0)]);
    var s2 := Step(s1, COMMIT_THEN_RECLAIM[1]);
    assert s2 == s1.(workers := map[0 := Releasing(0, Succeeded, true)]);
    var s3 := Step(s2, COMMIT_THEN_RECLAIM[2]);
    assert s3 == State(map[0 := ReportSuccess], map[0 := Job(Succeeded, None, 1)], HALFWAY.snapshot, map[0 := Idle]);
    assert multiset{ScanRow(0, true)} - multiset{ScanRow(0, true)} == multiset{};
    UnfoldFour(Step, HALFWAY, COMMIT_THEN_RECLAIM);
  }

  /**
   The stale update happens: selected while leased, written after the worker has
   committed, it leaves a successful report with a failed job.
   */
  lemma ReportAndJobCanDisagree()
    ensures exists actions :: !Agree(Run(INITIAL, actions), 0)
  {
    SelectedState();
    CommitThenReclaim();
    RunAppend(Step, INITIAL, SELECTED, COMMIT_THEN_RECLAIM);
    assert !Agree(Run(INITIAL, SELECTED + COMMIT_THEN_RECLAIM), 0);
  }

  const CRASH_THEN_RECLAIM: seq<Action> := [Work(0, Crash), Reclaim(ScanRow(0, true)), Enqueue(0), Enqueue(0)]

  lemma CrashThenReclaim()
    ensures Run(HALFWAY, CRASH_THEN_RECLAIM) ==
      State(map[0 := ReportPending], map[0 := Job(FailedTerminal, None, 1)], multiset{}, map[0 := Idle])
  {
    var s1 := Step(HALFWAY, CRASH_THEN_RECLAIM[0]);
    assert s1 == HALFWAY.(workers := map[0 := Idle]);
    var s2 := Step(s1, CRASH_THEN_RECLAIM[1]);
    assert multiset{ScanRow(0, true)} - multiset{ScanRow(0, true)} == multiset{};
    assert s2 == State(map[0 := ReportPending], map[0 := Job(FailedTerminal, None, 1)], multiset{}, map[0 := Idle]);
    assert Step(s2, CRASH_THEN_RECLAIM[2]) == s2;
    UnfoldFour(Step, HALFWAY, CRASH_THEN_RECLAIM);
  }

  lemma CrashHalfway()
    ensures Run(HALFWAY, [Work(0, Crash)]) == HALFWAY.(workers := map[0 := Idle])
  {
    RunSnoc(Step, HALFWAY, [], Work(0, Crash));
    assert [] + [Work(0, Crash)] == [Work(0, Crash)];
  }

  const LOSE_LEASE: seq<Action> := [Scan({}), Work(0, MarkRunning), Work(0, GenerationDone), Reclaim(ScanRow(0, true))]

  lemma LoseLease()
    ensures Run(HALFWAY, LOSE_LEASE) ==
      State(map[0 := ReportRunning], map[0 := Job(FailedTerminal, None, 1)], multiset{},
            map[0 := Releasing(0, Succeeded, true)])
  {
    var s1 := Step(HALFWAY, LOSE_LEASE[0]);
    assert s1 == HALFWAY;
    var s2 := Step(s1, LOSE_LEASE[1]);
    assert s2 == HALFWAY.(reports := map[0 := ReportRunning], workers := map[0 := Generating(0)]);
    var s3 := Step(s2, LOSE_LEASE[2]);
    assert s3 == s2.(workers := map[0 := Releasing(0, Succeeded, true)]);
    assert multiset{ScanRow(0, true)} - multiset{ScanRow(0, true)} == multiset{};
    UnfoldFour(Step, HALFWAY, LOSE_LEASE);
  }

  ghost predicate StrandedBy(actions: seq<Action>, state: JobState, pc: Pc) {
    var s := Run(INITIAL, actions);
    Stranded(s, 0) && 0 in s.jobs && s.jobs[0].state == state && PcOf(s, 0) == pc
  }

  lemma CrashStrands()
    ensures StrandedBy(SELECTED + [Work(0, Crash)], Leased, Idle)
  {
    SelectedState();
    CrashHalfway();
    RunAppend(Step, INITIAL, SELECTED, [Work(0, Crash)]);
    forall w ensures !CanWrite(HALFWAY.(workers := map[0 := Idle]), w, 0) {
    }
  }

  lemma ReclaimStrands()
    ensures StrandedBy(SELECTED + CRASH_THEN_RECLAIM, FailedTerminal, Idle)
  {
    SelectedState();
    CrashThenReclaim();
    RunAppend(Step, INITIAL, SELECTED, CRASH_THEN_RECLAIM);
    forall w ensures !CanWrite(Run(HALFWAY, CRASH_THEN_RECLAIM), w, 0) {
    }
  }

  lemma LostLeaseStrands()
    ensures StrandedBy(SELECTED + LOSE_LEASE, FailedTerminal, Releasing(0, Succeeded, true))
  {
    SelectedState();
    LoseLease();
    RunAppend(Step, INITIAL, SELECTED, LOSE_LEASE);
    forall w ensures !CanWrite(Run(HALFWAY, LOSE_LEASE), w, 0) {
    }
  }

  /**
   Reports get stranded in three ways: by a crash while the job is still leased, by that crash once
   the reclaimer has failed the job, and by a lease lost just before the commit.
   */
  lemma ReportsCanBeStranded()
    ensures exists actions :: StrandedBy(actions, Leased, Idle)
    ensures exists actions :: StrandedBy(actions, FailedTerminal, Idle)
    ensures exists actions :: StrandedBy(actions, FailedTerminal, Releasing(0, Succeeded, true))
  {
    hide StrandedBy;
    CrashStrands();
    ReclaimStrands();
    LostLeaseStrands();
  }
}
