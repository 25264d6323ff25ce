/**
 Where things come from and where they go, over every run: captions from replies,
 attempts from claims, and no job and no dead letter lost but by a crash or a failed XADD.
 */
module PipelineFlow {
  import opened Options
  import opened Runs
  import opened Pipeline
  import opened PipelineProofs
  import opened PipelineTheorems

  // ---------------------------------------------------------------------
  // Captions
  // ---------------------------------------------------------------------

  /** The caption a reply stands for: the parsed one, possibly null, or the raw text if there is any. */
  predicate Says(reply: CaptionReply, text: Option<string>) {
    match reply
    case FileMissing => false
    case Parsed(caption) => text == caption
    case Unparsed(stripped) => stripped != "" && text == Some(stripped)
  }

  /** The n-th action is a reply with this text to a worker on the caption job of image i. */
  predicate RepliesAt(actions: seq<Action>, n: nat, i: ImageId, text: Option<string>)
    requires n < |actions|
  {
    var a := actions[n];
    a.Work? && a.op.Caption? && Says(a.op.reply, text) && PcOf(Run(INITIAL, actions[..n]), a.w).Captioning?
    && PcOf(Run(INITIAL, actions[..n]), a.w).key == CaptionJob(i)
  }

  ghost predicate Replied(actions: seq<Action>, i: ImageId, text: Option<string>) {
    exists n :: 0 <= n < |actions| && RepliesAt(actions, n, i, text)
  }

  /** The caption that w's open transaction holds for an image. */
  predicate Buffers(s: State, w: Worker, i: ImageId, text: Option<string>) {
    PcOf(s, w).Releasing? && PcOf(s, w).write == SetCaption(i, text)
  }

  /** A caption appears in the table by the commit of a worker that holds it. */
  lemma CaptionStepSource(s: State, a: Action, i: ImageId)
    requires Captioned(Step(s, a).db, i)
    ensures
      || (Captioned(s.db, i) && Step(s, a).db.images[i].captionText == s.db.images[i].captionText)
      || (a.Work? && Buffers(s, a.w, i, Step(s, a).db.images[i].captionText))
  {
    hide ScanStep, WorkerStep;
    match a
    case ReceiveImage(_, _) =>
    case FlushOutbox(_) =>
    case FlushDlqOutbox(_) =>
    case Scan(expired) => ScanKeepsDb(s, expired);
    case Reclaim(_) =>
    case Work(w, op) =>
      if op.Claim? || op.Release? {
        LeaseOpsCaptions(s, w, op, i);
      } else {
        WorkerWrites(s, w, op);
      }
  }

  lemma LeaseOpsCaptions(s: State, w: Worker, op: WorkerOp, i: ImageId)
    requires (op.Claim? || op.Release?) && Captioned(WorkerStep(s, w, op).db, i)
    ensures
      || (Captioned(s.db, i) && WorkerStep(s, w, op).db.images[i].captionText == s.db.images[i].captionText)
      || Buffers(s, w, i, WorkerStep(s, w, op).db.images[i].captionText)
  {
  }

  /** A worker comes to hold a caption by a reply. */
  lemma BufferSource(s: State, a: Action, w: Worker, i: ImageId, text: Option<string>)
    requires Inv(s) && Buffers(Step(s, a), w, i, text)
    ensures Buffers(s, w, i, text) ||
      (a.Work? && a.w == w && a.op.Caption? && Says(a.op.reply, text) && PcOf(s, w).Captioning? && PcOf(s, w).key == CaptionJob(i))
  {
    assert WorkerOk(s, w);
    hide Inv;
    if !IsBy(a, w) {
      OtherPcKept(s, a, w);
    }
  }

  lemma RepliedStays(actions: seq<Action>, a: Action, i: ImageId, text: Option<string>)
    requires Replied(actions, i, text)
    ensures Replied(actions + [a], i, text)
  {
    hide Run;
    var n :| 0 <= n < |actions| && RepliesAt(actions, n, i, text);
    assert (actions + [a])[..n] == actions[..n];
    assert RepliesAt(actions + [a], n, i, text);
  }

  ghost predicate AllReplied(actions: seq<Action>) {
    var s := Run(INITIAL, actions);
    && (forall i :: Captioned(s.db, i) ==> Replied(actions, i, s.db.images[i].captionText))
    && (forall w, i, text :: Buffers(s, w, i, text) ==> Replied(actions, i, text))
  }

  lemma AllRepliedSnoc(actions: seq<Action>, a: Action)
    requires AllReplied(actions)
    ensures AllReplied(actions + [a])
  {
    hide Step, Replied, Buffers, Run;
    var s, more := Run(INITIAL, actions), actions + [a];
    RunSnocs(actions, a);
    ReachableInv(actions);
    forall i | Captioned(Step(s, a).db, i) ensures Replied(more, i, Step(s, a).db.images[i].captionText) {
      CaptionStepSource(s, a, i);
      RepliedStays(actions, a, i, Step(s, a).db.images[i].captionText);
    }
    forall w, i, text | Buffers(Step(s, a), w, i, text) ensures Replied(more, i, text) {
      BufferSource(s, a, w, i, text);
      if Buffers(s, w, i, text) {
        RepliedStays(actions, a, i, text);
      } else {
        assert more[..|actions|] == actions;
        assert RepliesAt(more, |actions|, i, text);
        RepliedAt(more, |actions|, i, text);
      }
    }
  }

  lemma RepliedAt(actions: seq<Action>, n: nat, i: ImageId, text: Option<string>)
    requires n < |actions| && RepliesAt(actions, n, i, text)
    ensures Replied(actions, i, text)
  {
  }

  lemma RunSnocs(actions: seq<Action>, a: Action)
    ensures Run(INITIAL, actions + [a]) == Step(Run(INITIAL, actions), a)
  {
    RunSnoc(Step, INITIAL, actions, a);
  }

  lemma {:induction false} AllRepliedAlways(actions: seq<Action>)
    ensures AllReplied(actions)
  {
    hide AllReplied;
    if actions == [] {
      NothingReplied();
    } else {
      AllRepliedAlways(actions[..|actions| - 1]);
      AllRepliedSnoc(actions[..|actions| - 1], actions[|actions| - 1]);
      assert actions == actions[..|actions| - 1] + [actions[|actions| - 1]];
    }
  }

  lemma NothingReplied()
    ensures AllReplied([])
  {
  }

  /** In every run, the text of a captioned image is one that a reply gave to a worker on its caption job. */
  lemma CaptionComesFromReply(actions: seq<Action>, i: ImageId)
    requires Captioned(Run(INITIAL, actions).db, i)
    ensures exists n :: 0 <= n < |actions| && RepliesAt(actions, n, i, Run(INITIAL, actions).db.images[i].captionText)
  {
    hide Run, RepliesAt;
    AllRepliedAlways(actions);
  }

  // ---------------------------------------------------------------------
  // Every job row reaches its stream
  // ---------------------------------------------------------------------

  /** The key is on its stream, or an XADD of it is still to come. */
  ghost predicate OnItsWay(s: State, k: JobKey) {
    k in s.streams || k in s.outbox || exists w :: Awaits(s, w, k)
  }

  /** w is still to enqueue the key after its commit. */
  predicate Awaits(s: State, w: Worker, k: JobKey) {
    PcOf(s, w).PostCommit? && k in PcOf(s, w).todo
  }

  /** The worker crashes before its XADD of the key, or Redis refuses it. */
  predicate Loses(s: State, a: Action, k: JobKey) {
    a.Work? && Awaits(s, a.w, k) && (a.op.Crash? || (a.op.EnqueueNext? && !a.op.ok && PcOf(s, a.w).todo[0] == k))
  }

  ghost predicate LostIn(actions: seq<Action>, k: JobKey) {
    exists n :: 0 <= n < |actions| && LosesAt(actions, n, k)
  }

  predicate LosesAt(actions: seq<Action>, n: nat, k: JobKey)
    requires n < |actions|
  {
    Loses(Run(INITIAL, actions[..n]), actions[n], k)
  }

  /** A row is new only when its XADD is due. */
  lemma NewRowIsDue(s: State, a: Action, k: JobKey)
    requires k !in s.db.jobs && k in Step(s, a).db.jobs
    ensures OnItsWay(Step(s, a), k)
  {
    if a.Work? {
      assert a.op.Release? && Awaits(Step(s, a), a.w, k);
    } else if a.Scan? {
      ScanKeepsDb(s, a.expired);
    }
  }

  lemma DueStays(s: State, a: Action, k: JobKey)
    requires OnItsWay(s, k) && !Loses(s, a, k)
    ensures OnItsWay(Step(s, a), k)
  {
    if k !in s.streams && k !in s.outbox {
      var w :| Awaits(s, w, k);
      if IsBy(a, w) {
        OwnQueueStays(s, a, w, k);
      } else {
        OtherPcKept(s, a, w);
        assert Awaits(Step(s, a), w, k);
      }
    }
  }

  lemma OwnQueueStays(s: State, a: Action, w: Worker, k: JobKey)
    requires Awaits(s, w, k) && IsBy(a, w) && !Loses(s, a, k)
    ensures k in Step(s, a).streams || Awaits(Step(s, a), w, k)
  {
  }

  /** A job row whose key is neither on its stream nor on the way there was lost by a crash or a failed XADD. */
  lemma {:induction false} JobsReachStreams(actions: seq<Action>, k: JobKey)
    requires k in Run(INITIAL, actions).db.jobs
    ensures OnItsWay(Run(INITIAL, actions), k) || LostIn(actions, k)
  {
    hide OnItsWay, Loses, Step;
    if actions != [] {
      var m := |actions| - 1;
      var before, a := actions[..m], actions[m];
      var s := Run(INITIAL, before);
      assert actions == before + [a];
      RunSnocs(before, a);
      if k !in s.db.jobs {
        NewRowIsDue(s, a, k);
      } else {
        JobsReachStreams(before, k);
        if LostIn(before, k) {
          var n :| 0 <= n < m && LosesAt(before, n, k);
          assert before[..n] == actions[..n] && LosesAt(actions, n, k);
        } else if Loses(s, a, k) {
          assert LosesAt(actions, m, k);
        } else {
          DueStays(s, a, k);
        }
      }
    }
  }

  // ---------------------------------------------------------------------
  // Every terminal failure reaches the DLQ
  // ---------------------------------------------------------------------

  ghost predicate DeadOnItsWay(s: State, k: JobKey) {
    k in s.dlq || k in s.dlqOutbox || exists w :: AwaitsDlq(s, w, k)
  }

  predicate AwaitsDlq(s: State, w: Worker, k: JobKey) {
    PcOf(s, w).PostCommit? && PcOf(s, w).key == k && PcOf(s, w).outcome == FailedTerminal
  }

  predicate LosesDlq(s: State, a: Action, k: JobKey) {
    a.Work? && AwaitsDlq(s, a.w, k) && (a.op.Crash? || (a.op.EnqueueDlq? && !a.op.ok && PcOf(s, a.w).todo == []))
  }

  predicate LosesDlqAt(actions: seq<Action>, n: nat, k: JobKey)
    requires n < |actions|
  {
    LosesDlq(Run(INITIAL, actions[..n]), actions[n], k)
  }

  ghost predicate DeadLostIn(actions: seq<Action>, k: JobKey) {
    exists n :: 0 <= n < |actions| && LosesDlqAt(actions, n, k)
  }

  lemma NewFailureIsDue(s: State, a: Action, k: JobKey)
    requires !Logged(s.db, k, FailedTerminal) && Logged(Step(s, a).db, k, FailedTerminal)
    ensures DeadOnItsWay(Step(s, a), k)
  {
    hide ScanStep, WorkerStep;
    var t := Step(s, a);
    var actor :| HistoryRow(k, FailedTerminal, actor) in t.db.history;
    assert HistoryRow(k, FailedTerminal, actor) !in s.db.history;
    match a
    case ReceiveImage(_, _) =>
    case FlushOutbox(_) =>
    case FlushDlqOutbox(_) =>
    case Scan(expired) => ScanKeepsDb(s, expired);
    case Reclaim(_) =>
    case Work(w, op) =>
      if op.Claim? || op.Release? {
        ReleaseLogs(s, w, op, HistoryRow(k, FailedTerminal, actor));
        assert AwaitsDlq(t, w, k);
      } else {
        WorkerWrites(s, w, op);
      }
  }

  lemma ReleaseLogs(s: State, w: Worker, op: WorkerOp, row: HistoryRow)
    requires (op.Claim? || op.Release?) && row in WorkerStep(s, w, op).db.history && row !in s.db.history
    ensures PcOf(WorkerStep(s, w, op), w).PostCommit?
    ensures PcOf(WorkerStep(s, w, op), w).key == row.key && PcOf(WorkerStep(s, w, op), w).outcome == row.state
  {
  }

  lemma DeadStays(s: State, a: Action, k: JobKey)
    requires DeadOnItsWay(s, k) && !LosesDlq(s, a, k)
    ensures DeadOnItsWay(Step(s, a), k)
  {
    if k !in s.dlq && k !in s.dlqOutbox {
      var w :| AwaitsDlq(s, w, k);
      if IsBy(a, w) {
        OwnFailureStays(s, a, w, k);
      } else {
        OtherPcKept(s, a, w);
        assert AwaitsDlq(Step(s, a), w, k);
      }
    }
  }

  lemma OwnFailureStays(s: State, a: Action, w: Worker, k: JobKey)
    requires AwaitsDlq(s, w, k) && IsBy(a, w) && !LosesDlq(s, a, k)
    ensures k in Step(s, a).dlq || AwaitsDlq(Step(s, a), w, k)
  {
  }

  /** A terminal failure that is neither on the DLQ nor on the way there was lost by a crash or a failed XADD. */
  lemma {:induction false} FailuresReachDlq(actions: seq<Action>, k: JobKey)
    requires Logged(Run(INITIAL, actions).db, k, FailedTerminal)
    ensures DeadOnItsWay(Run(INITIAL, actions), k) || DeadLostIn(actions, k)
  {
    hide DeadOnItsWay, LosesDlq, Step, Logged;
    if actions == [] {
      NothingLogged(k);
    } else {
      var m := |actions| - 1;
      var before, a := actions[..m], actions[m];
      var s := Run(INITIAL, before);
      assert actions == before + [a];
      RunSnocs(before, a);
      if !Logged(s.db, k, FailedTerminal) {
        NewFailureIsDue(s, a, k);
      } else {
        FailuresReachDlq(before, k);
        if DeadLostIn(before, k) {
          var n :| 0 <= n < m && LosesDlqAt(before, n, k);
          assert before[..n] == actions[..n] && LosesDlqAt(actions, n, k);
        } else if LosesDlq(s, a, k) {
          assert LosesDlqAt(actions, m, k);
        } else {
          DeadStays(s, a, k);
        }
      }
    }
  }

  lemma NothingLogged(k: JobKey)
    ensures !Logged(INITIAL.db, k, FailedTerminal)
  {
  }

  // ---------------------------------------------------------------------
  // Attempts
  // ---------------------------------------------------------------------

  /** The action claims this job: by an idle worker, from the stream, while it is pending. */
  predicate Claims(s: State, a: Action, k: JobKey) {
    a.Work? && a.op == Claim(k) && PcOf(s, a.w).Idle? && k in s.streams && k in s.db.jobs && s.db.jobs[k].state == Pending
  }

  /** How often a run claims a job. */
  function ClaimCount(actions: seq<Action>, k: JobKey): nat {
    if actions == [] then 0
    else
      var before, a := actions[..|actions| - 1], actions[|actions| - 1];
      ClaimCount(before, k) + if Claims(Run(INITIAL, before), a, k) then 1 else 0
  }

  /** The attempts of a job count its claims, and three are allowed. */
  predicate Counted(db: Db, k: JobKey, claims: nat) {
    if k in db.jobs then db.jobs[k].attempts == claims && db.jobs[k].maxAttempts == 3 else claims == 0
  }

  lemma StepCounts(s: State, a: Action, k: JobKey, claims: nat)
    requires Counted(s.db, k, claims)
    ensures Counted(Step(s, a).db, k, claims + if Claims(s, a, k) then 1 else 0)
  {
    hide ScanStep, WorkerStep, ReceiveStep, ReclaimStep;
    match a
    case ReceiveImage(i, eventful) => ReceiveCounts(s, i, eventful, k, claims);
    case FlushOutbox(_) =>
    case FlushDlqOutbox(_) =>
    case Scan(expired) => ScanKeepsDb(s, expired);
    case Reclaim(row) => ReclaimCounts(s, row, k, claims);
    case Work(w, op) =>
      if op.Claim? {
        ClaimCounts(s, w, op, k);
      } else if op.Release? {
        ReleaseCounts(s, w, op, k);
      } else {
        WorkerWrites(s, w, op);
      }
  }

  lemma ReceiveCounts(s: State, i: ImageId, eventful: bool, k: JobKey, claims: nat)
    requires Counted(s.db, k, claims)
    ensures Counted(ReceiveStep(s, i, eventful).db, k, claims)
  {
  }

  lemma ReclaimCounts(s: State, row: ScanRow, k: JobKey, claims: nat)
    requires Counted(s.db, k, claims)
    ensures Counted(ReclaimStep(s, row).db, k, claims)
  {
  }

  lemma ClaimCounts(s: State, w: Worker, op: WorkerOp, k: JobKey)
    requires op.Claim?
    ensures k in WorkerStep(s, w, op).db.jobs <==> k in s.db.jobs
    ensures k in s.db.jobs ==> WorkerStep(s, w, op).db.jobs[k].maxAttempts == s.db.jobs[k].maxAttempts
    ensures k in s.db.jobs ==> WorkerStep(s, w, op).db.jobs[k].attempts == s.db.jobs[k].attempts + if Claims(s, Work(w, op), k) then 1 else 0
  {
  }

  lemma ReleaseCounts(s: State, w: Worker, op: WorkerOp, k: JobKey)
    requires op.Release?
    ensures k in s.db.jobs ==> k in WorkerStep(s, w, op).db.jobs
    ensures k in s.db.jobs ==> WorkerStep(s, w, op).db.jobs[k].(state := Pending, owner := None) == s.db.jobs[k].(state := Pending, owner := None)
    ensures k !in s.db.jobs && k in WorkerStep(s, w, op).db.jobs ==> WorkerStep(s, w, op).db.jobs[k] == Job(Pending, None, 0, 3)
  {
  }

  /** In every run, a job has been claimed as often as its attempts say; its limit is three. */
  lemma {:induction false} AttemptsAreClaims(actions: seq<Action>, k: JobKey)
    ensures Counted(Run(INITIAL, actions).db, k, ClaimCount(actions, k))
  {
    hide Step, Counted, Claims;
    if actions == [] {
      NothingCounted(k);
    } else {
      var before, a := actions[..|actions| - 1], actions[|actions| - 1];
      AttemptsAreClaims(before, k);
      StepCounts(Run(INITIAL, before), a, k, ClaimCount(before, k));
      assert actions == before + [a];
      RunSnocs(before, a);
    }
  }

  lemma NothingCounted(k: JobKey)
    ensures Counted(INITIAL.db, k, 0)
  {
  }

  // ---------------------------------------------------------------------
  // The webhook and the reclaimer
  // ---------------------------------------------------------------------

  /** A new image comes in pending; one that is there is left alone. */
  lemma ReceiveStores(s: State, i: ImageId, eventful: bool)
    ensures i in s.db.images ==> Step(s, ReceiveImage(i, eventful)) == s
    ensures i !in s.db.images ==> Step(s, ReceiveImage(i, eventful)).db.images == s.db.images[i := Image(CaptionPending, None, false, eventful)]
  {
  }

  /** The select takes exactly the expired leased and waiting jobs, noting which have no attempt left. */
  lemma ScanSelects(s: State, expired: set<JobKey>, row: ScanRow)
    ensures ScanStep(s, expired) == s.(snapshot := ScanStep(s, expired).snapshot)
    ensures ScanStep(s, expired).snapshot[row] == s.snapshot[row] +
      if row.key in expired && row.key in s.db.jobs && s.db.jobs[row.key].state in {Leased, RetryWait}
         && (row.exhausted <==> s.db.jobs[row.key].attempts >= s.db.jobs[row.key].maxAttempts) then 1 else 0
  {
  }

  /** A selected job is released to another attempt, or fails; either way it is to be announced. */
  lemma ReclaimReleases(s: State, row: ScanRow)
    requires row in s.snapshot && row.key in s.db.jobs
    ensures var t, was, next := Step(s, Reclaim(row)), s.db.jobs[row.key], if row.exhausted then FailedTerminal else Pending;
      && t.db.images == s.db.images
      && t.db.jobs == s.db.jobs[row.key := Job(next, None, was.attempts, was.maxAttempts)]
      && t.db.history == s.db.history + {HistoryRow(row.key, next, ByReclaimer)}
      && t.dlqOutbox == s.dlqOutbox + (if row.exhausted then {row.key} else {})
      && t.outbox == s.outbox + (if row.exhausted then {} else {row.key})
  {
  }
}
