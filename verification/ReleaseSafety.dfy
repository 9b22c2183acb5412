/**
 What every history of the release controller keeps: a merge is not asked for twice unless the first
 request was recorded as blocked, and a receipt, once stored, is genuine and stays.
 */
module ReleaseSafety {
  import opened Wrappers
  import opened Release

  // ---------------------------------------------------------------- what a plan contains

  /** The commands of a rebuilt plan, in terms of the plan's own fields. */
  ghost predicate Planned(job: Job) {
    var p, c := job.plan, job.plan.context;
    && p.repairTracking == job.repair && p.repository == c.repository
    && c.statusFieldId != c.dependencyFieldId && c.reviewOptionId != c.doneOptionId
    && var evidence, done := EditOf(c, c.dependencyFieldId, Text, p.evidenceText), StatusUpdate(c, c.doneOptionId);
    if job.repair then p.beforeMerge == [] && p.requestMerge == [] && p.afterMerge == [evidence, done]
    else
      && p.beforeMerge == [StatusUpdate(c, c.reviewOptionId), evidence]
      && p.requestMerge == [Merge(c.prNumber, c.repository, p.implementationSha)]
      && p.afterMerge == [done]
  }

  lemma ValidJobIsPlanned(job: Job)
    requires ValidJob(job)
    ensures Planned(job)
  {
    hide EvidenceText;
    hide IsPrintable;
    hide IsSha;
  }

  // ---------------------------------------------------------------- merges in a history

  predicate IsMerge(entry: Entry) {
    entry.Issued? && entry.command.Merge?
  }

  predicate RecordsBlocked(entry: Entry) {
    entry.WroteOperation? && entry.operation.decision.RecordedBlocked?
  }

  /** The last merge request has not been recorded as blocked since. */
  predicate Outstanding(log: seq<Entry>) {
    log != [] &&
    var last := log[|log| - 1];
    IsMerge(last) || (!RecordsBlocked(last) && Outstanding(log[..|log| - 1]))
  }

  /** No merge was ever issued while an earlier one was outstanding. */
  predicate Separated(log: seq<Entry>) {
    log == []
    || (&& Separated(log[..|log| - 1])
        && (IsMerge(log[|log| - 1]) ==> !Outstanding(log[..|log| - 1])))
  }

  function Merges(log: seq<Entry>): nat {
    if log == [] then 0 else Merges(log[..|log| - 1]) + if IsMerge(log[|log| - 1]) then 1 else 0
  }

  function BlockedRecords(log: seq<Entry>): nat {
    if log == [] then 0 else BlockedRecords(log[..|log| - 1]) + if RecordsBlocked(log[|log| - 1]) then 1 else 0
  }

  lemma {:induction false} SeparatedIsBounded(log: seq<Entry>)
    requires Separated(log)
    ensures Merges(log) <= BlockedRecords(log) + if Outstanding(log) then 1 else 0
  {
    if log != [] {
      SeparatedIsBounded(log[..|log| - 1]);
    }
  }

  // ---------------------------------------------------------------- the invariant on one world

  /** The operation record allows a first or a further request. */
  ghost predicate Open(w: World) {
    w.receipt.None? && (w.operation.None? || w.operation.value.decision.RecordedBlocked?)
  }

  ghost predicate Requested(w: World, job: Job) {
    w.receipt.None? && w.operation == Some(OperationOf(job.plan, MergeRequested))
  }

  /** The last thing this run did was to write its request down. */
  ghost predicate JustRequested(w: World, job: Job) {
    w.log != [] && w.log[|w.log| - 1] == WroteOperation(OperationOf(job.plan, MergeRequested))
  }

  ghost predicate OnlyEdits(commands: seq<Command>) {
    forall i | 0 <= i < |commands| :: commands[i].Edit?
  }

  ghost predicate PointInv(w: World, job: Job, point: Point) {
    match point
    case ReadPending => !job.repair
    case ReadPr => !job.repair ==> Open(w)
    case ReadTracking(pr) =>
      && (!job.repair ==> Open(w))
      && (job.repair ==> ConfirmedMerged(pr, job.plan.context, job.plan.implementationSha) && SawPr(pr) in w.log)
    case SaveConfirmed(receipt) => job.repair && job.execute && Holds(w, receipt) && Genuine(w.log, receipt)
    case SaveReceipt(receipt, mutations) =>
      && job.execute && (job.repair || Requested(w, job))
      && Holds(w, receipt) && Genuine(w.log, receipt) && OnlyEdits(mutations)
    case BeforeMerge(i) => !job.repair && job.execute && Open(w) && i < 2
    case Recheck => !job.repair && job.execute && Open(w)
    case SaveRequested => !job.repair && job.execute && Open(w)
    case RequestMerge => !job.repair && job.execute && Requested(w, job) && JustRequested(w, job)
    case Confirm(_) => !job.repair && job.execute && Requested(w, job)
    case SaveDecision(_) => !job.repair && job.execute && Requested(w, job)
    case AfterMerge(receipt, mutations, i) =>
      job.execute && w.receipt == Some(receipt) && OnlyEdits(mutations) && i < |mutations|
    case SaveFinal(receipt) => job.execute && w.receipt == Some(receipt)
    case SaveOutcome(outcome) => job.execute && Honest(w, outcome)
  }

  /** No other receipt is stored. */
  ghost predicate Holds(w: World, receipt: Receipt) {
    w.receipt.None? || w.receipt.value == receipt
  }

  /** The receipt was made from a pull request that was read, and was confirmed as merged when it was read. */
  ghost predicate Genuine(log: seq<Entry>, receipt: Receipt) {
    exists pr :: && SawPr(pr) in log
                 && ConfirmedMerged(pr, receipt.context, receipt.candidate)
                 && receipt.mergeCommit == pr.mergeCommit.value && receipt.mergedAt == pr.mergedAt.value
                 && receipt.prNumber == receipt.context.prNumber && receipt.baseBranch == receipt.context.baseBranch
  }

  /** A confirmed receipt is genuine and never reported as blocked; a finished release has stored its own. */
  ghost predicate Honest(w: World, outcome: Outcome) {
    && (outcome.receipt.Some? ==> Genuine(w.log, outcome.receipt.value) && !outcome.decision.Blocked?)
    && (outcome.decision.Merged? || outcome.decision.TrackingRepaired? ==>
          outcome.receipt.Some? && w.receipt == outcome.receipt)
    && (outcome.decision.MergedTrackingFailed? ==> outcome.receipt.Some?)
  }

  ghost predicate RecordsDone(op: Option<Operation>) {
    op.Some? && (op.value.decision.RecordedMerged? || op.value.decision.RecordedRepaired?)
  }

  ghost predicate Inv(w: World) {
    && Separated(w.log)
    && (Outstanding(w.log) ==> !Open(w) && !(w.run.Running? && w.run.point.RequestMerge?))
    && (RecordsDone(w.operation) ==> w.receipt.Some?)
    && (w.receipt.Some? ==> Genuine(w.log, w.receipt.value))
    && (match w.run
        case Idle => true
        case Running(job, point) => PointInv(w, job, point) && (!point.SaveOutcome? ==> Planned(job))
        case Ended(_, outcome) => Honest(w, outcome))
  }

  // ---------------------------------------------------------------- one step keeps it

  lemma GenuineGrows(log: seq<Entry>, log': seq<Entry>, receipt: Receipt)
    requires Genuine(log, receipt) && forall x | x in log :: x in log'
    ensures Genuine(log', receipt)
  {
    hide ConfirmedMerged;
  }

  lemma Logged(w: World, entry: Entry)
    ensures var log := Note(w, entry).log;
            && Outstanding(log) == (IsMerge(entry) || (!RecordsBlocked(entry) && Outstanding(w.log)))
            && (Separated(log) <==> Separated(w.log) && (IsMerge(entry) ==> !Outstanding(w.log)))
            && forall r | Genuine(w.log, r) :: Genuine(log, r)
  {
    var log := Note(w, entry).log;
    assert log[..|w.log|] == w.log;
    forall r | Genuine(w.log, r)
      ensures Genuine(log, r)
    {
      GenuineGrows(w.log, log, r);
    }
  }

  lemma ReceiptIsGenuine(log: seq<Entry>, plan: Plan, pr: PullRequest)
    requires ConfirmedMerged(pr, plan.context, plan.implementationSha) && SawPr(pr) in log
    ensures Genuine(log, ReceiptOf(plan, pr))
  {
  }

  lemma BeginKeeps(w: World, job: Job)
    requires Inv(w) && !w.run.Running?
    ensures Inv(BeginRun(w, job))
  {
    hide ValidJob;
    hide Planned;
    hide Genuine;
    hide Outstanding;
    hide Separated;
    Logged(w, Began(job));
    if ValidJob(job) {
      ValidJobIsPlanned(job);
    }
  }

  lemma SeePrKeeps(w: World, pr: Option<PullRequest>)
    ensures var w' := SeePr(w, pr);
            && Outstanding(w'.log) == Outstanding(w.log) && Separated(w'.log) == Separated(w.log)
            && (forall r | Genuine(w.log, r) :: Genuine(w'.log, r))
            && (pr.Some? ==> SawPr(pr.value) in w'.log)
  {
    if pr.Some? {
      Logged(w, SawPr(pr.value));
      assert Note(w, SawPr(pr.value)).log[|w.log|] == SawPr(pr.value);
    }
  }

  lemma PendingKeeps(w: World, job: Job, reply: Reply)
    requires Inv(w) && w.run == Running(job, ReadPending)
    ensures Inv(StepRun(w, job, ReadPending, reply))
  {
    hide Genuine;
    hide Outstanding;
    hide Separated;
    hide Planned;
    hide SameCandidate;
    SeePrKeeps(w, reply.pr);
  }

  lemma PrKeeps(w: World, job: Job, reply: Reply)
    requires Inv(w) && w.run == Running(job, ReadPr)
    ensures Inv(StepRun(w, job, ReadPr, reply))
  {
    hide Genuine;
    hide Outstanding;
    hide Separated;
    hide Planned;
    hide SameCandidate;
    hide ReadyToMerge;
    hide ConfirmedMerged;
    SeePrKeeps(w, reply.pr);
  }

  lemma RecheckKeeps(w: World, job: Job, reply: Reply)
    requires Inv(w) && w.run == Running(job, Recheck)
    ensures Inv(StepRun(w, job, Recheck, reply))
  {
    hide Genuine;
    hide Outstanding;
    hide Separated;
    hide Planned;
    hide ReadyToMerge;
    SeePrKeeps(w, reply.pr);
  }

  lemma PlannedAreEdits(job: Job)
    ensures Planned(job) ==> OnlyEdits(job.plan.afterMerge)
  {
  }

  lemma ConfirmKeeps(w: World, job: Job, failed: bool, reply: Reply)
    requires Inv(w) && w.run == Running(job, Confirm(failed))
    ensures Inv(StepRun(w, job, Confirm(failed), reply))
  {
    hide OnPending, OnPr, OnTracking, OnBefore, OnRecheck, OnRequestMerge, OnSaveDecision, OnAfter, OnSaveFinal;
    hide Repairs;
    hide Genuine;
    hide Outstanding;
    hide Separated;
    hide SameCandidate;
    hide IsSha;
    hide OnlyEdits;
    hide Planned;
    PlannedAreEdits(job);
    SeePrKeeps(w, reply.pr);
    var w' := SeePr(w, reply.pr);
    if reply.pr.Some? && ConfirmedMerged(reply.pr.value, job.plan.context, job.plan.implementationSha) {
      ReceiptIsGenuine(w'.log, job.plan, reply.pr.value);
    }
  }

  lemma TrackingKeeps(w: World, job: Job, pr: PullRequest, reply: Reply)
    requires Inv(w) && w.run == Running(job, ReadTracking(pr))
    ensures Inv(StepRun(w, job, ReadTracking(pr), reply))
  {
    hide OnPending, OnPr, OnBefore, OnRecheck, OnRequestMerge, OnConfirm, OnSaveDecision, OnAfter, OnSaveFinal;
    hide Genuine;
    hide Outstanding;
    hide Separated;
    hide SameCandidate;
    hide IsSha;
    hide TrackingReady;
    if job.repair {
      ReceiptIsGenuine(w.log, job.plan, pr);
    }
  }

  lemma CommandKeeps(w: World, job: Job, point: Point, reply: Reply)
    requires Inv(w) && w.run == Running(job, point)
    requires point.BeforeMerge? || point.AfterMerge?
    ensures Inv(StepRun(w, job, point, reply))
  {
    hide OnPending, OnPr, OnTracking, OnRecheck, OnRequestMerge, OnConfirm, OnSaveDecision, OnSaveFinal, Repairs;
    hide Genuine;
    hide Outstanding;
    hide Separated;
    hide EvidenceText;
    hide ConfirmedMerged;
    var command := if point.BeforeMerge? && point.i < |job.plan.beforeMerge| then job.plan.beforeMerge[point.i]
                   else if point.AfterMerge? then point.mutations[point.i] else StatusUpdate(job.plan.context, "");
    assert command.Edit?;
    Logged(w, Issued(command));
  }

  lemma MergeKeeps(w: World, job: Job, reply: Reply)
    requires Inv(w) && w.run == Running(job, RequestMerge)
    ensures Inv(StepRun(w, job, RequestMerge, reply))
  {
    hide Genuine;
    hide Outstanding;
    hide Separated;
    Logged(w, Issued(job.plan.requestMerge[0]));
  }

  lemma ReceiptKeeps(w: World, job: Job, point: Point, reply: Reply)
    requires Inv(w) && w.run == Running(job, point)
    requires point.SaveConfirmed? || point.SaveReceipt?
    ensures Inv(StepRun(w, job, point, reply))
  {
    hide Genuine;
    hide Outstanding;
    hide Separated;
    hide Planned;
    Logged(w, WroteReceipt(point.receipt));
  }

  lemma RequestedKeeps(w: World, job: Job, reply: Reply)
    requires Inv(w) && w.run == Running(job, SaveRequested)
    ensures Inv(StepRun(w, job, SaveRequested, reply))
  {
    hide Genuine;
    hide Outstanding;
    hide Separated;
    hide Planned;
    Logged(w, WroteOperation(OperationOf(job.plan, MergeRequested)));
  }

  lemma DecisionKeeps(w: World, job: Job, failed: bool, reply: Reply)
    requires Inv(w) && w.run == Running(job, SaveDecision(failed))
    ensures Inv(StepRun(w, job, SaveDecision(failed), reply))
  {
    hide Genuine;
    hide Outstanding;
    hide Separated;
    hide Planned;
    Logged(w, WroteOperation(OperationOf(job.plan, if failed then RecordedBlocked else MergePending)));
  }

  lemma FinalKeeps(w: World, job: Job, receipt: Receipt, reply: Reply)
    requires Inv(w) && w.run == Running(job, SaveFinal(receipt))
    ensures Inv(StepRun(w, job, SaveFinal(receipt), reply))
  {
    hide Genuine;
    hide Outstanding;
    hide Separated;
    hide Planned;
    Logged(w, WroteOperation(OperationOf(job.plan, if job.repair then RecordedRepaired else RecordedMerged)));
  }

  lemma NextKeeps(w: World, h: Happening)
    requires Inv(w)
    ensures Inv(Next(w, h))
  {
    hide StepRun;
    hide BeginRun;
    match h
    case Begin(job) =>
      if !w.run.Running? {
        BeginKeeps(w, job);
      }
    case Step(reply) =>
      if w.run.Running? {
        StepKeeps(w, w.run.job, w.run.point, reply);
      }
    case Crash =>
    case Outside(fields) =>
      OutsideKeeps(w, fields);
  }

  lemma OutsideKeeps(w: World, fields: Fields)
    requires Inv(w)
    ensures Inv(w.(fields := fields, undisturbed := false))
  {
    hide Genuine;
    hide Separated;
    hide Outstanding;
    hide Planned;
  }

  lemma StepKeeps(w: World, job: Job, point: Point, reply: Reply)
    requires Inv(w) && w.run == Running(job, point)
    ensures Inv(StepRun(w, job, point, reply))
  {
    match point
    case ReadPending => PendingKeeps(w, job, reply);
    case ReadPr => PrKeeps(w, job, reply);
    case ReadTracking(pr) => TrackingKeeps(w, job, pr, reply);
    case SaveConfirmed(_) => ReceiptKeeps(w, job, point, reply);
    case SaveReceipt(_, _) => ReceiptKeeps(w, job, point, reply);
    case BeforeMerge(_) => CommandKeeps(w, job, point, reply);
    case Recheck => RecheckKeeps(w, job, reply);
    case SaveRequested => RequestedKeeps(w, job, reply);
    case RequestMerge => MergeKeeps(w, job, reply);
    case Confirm(failed) => ConfirmKeeps(w, job, failed, reply);
    case SaveDecision(failed) => DecisionKeeps(w, job, failed, reply);
    case AfterMerge(_, _, _) => CommandKeeps(w, job, point, reply);
    case SaveFinal(receipt) => FinalKeeps(w, job, receipt, reply);
    case SaveOutcome(_) =>
  }

  // ---------------------------------------------------------------- every history

  lemma {:induction false} HistoryInv(w: World, hs: seq<Happening>)
    requires Fresh(w)
    ensures Inv(History(w, hs))
  {
    hide Next;
    if hs != [] {
      HistoryInv(w, hs[..|hs| - 1]);
      NextKeeps(History(w, hs[..|hs| - 1]), hs[|hs| - 1]);
    }
  }

  /**
   Whatever the runs, replies and crashes, the controller never issues a merge while an earlier one is
   outstanding, so it issues at most one more than it has recorded as blocked.
   */
  lemma MergesAreSeparated(w: World, hs: seq<Happening>)
    requires Fresh(w)
    ensures Separated(History(w, hs).log)
    ensures Merges(History(w, hs).log) <= 1 + BlockedRecords(History(w, hs).log)
  {
    hide History;
    hide Separated;
    HistoryInv(w, hs);
    SeparatedIsBounded(History(w, hs).log);
  }

  /**
   A step that issues a merge finds no receipt, and its own request on record: writing that record was the step
   directly before it, so it was written by this very run.
   */
  lemma MergeIsRecordedFirst(w: World, hs: seq<Happening>, h: Happening)
    requires Fresh(w)
    requires Merges(Next(History(w, hs), h).log) > Merges(History(w, hs).log)
    ensures var before := History(w, hs);
            && before.run.Running? && !before.run.job.repair && before.run.job.execute
            && before.receipt.None?
            && before.operation == Some(OperationOf(before.run.job.plan, MergeRequested))
            && before.run.point.RequestMerge? && JustRequested(before, before.run.job)
  {
    hide History;
    HistoryInv(w, hs);
    var before := History(w, hs);
    if !(before.run.Running? && before.run.point.RequestMerge?) || !h.Step? {
      OnlyRequestMerges(before, h);
    }
  }

  lemma MergesAfter(log: seq<Entry>, entry: Entry)
    ensures Merges(log + [entry]) == Merges(log) + if IsMerge(entry) then 1 else 0
  {
  }

  /** The one entry a step adds to the log, if any. */
  ghost function EntryOf(job: Job, point: Point, reply: Reply): seq<Entry> {
    match point
    case ReadPending => if reply.pr.Some? then [SawPr(reply.pr.value)] else []
    case ReadPr => if reply.pr.Some? then [SawPr(reply.pr.value)] else []
    case Recheck => if reply.pr.Some? then [SawPr(reply.pr.value)] else []
    case Confirm(_) => if reply.pr.Some? then [SawPr(reply.pr.value)] else []
    case BeforeMerge(i) => if i < |job.plan.beforeMerge| then [Issued(job.plan.beforeMerge[i])] else []
    case RequestMerge => if job.plan.requestMerge != [] then [Issued(job.plan.requestMerge[0])] else []
    case AfterMerge(_, mutations, i) => if i < |mutations| then [Issued(mutations[i])] else []
    case SaveRequested => if reply.ok then [WroteOperation(OperationOf(job.plan, MergeRequested))] else []
    case SaveConfirmed(receipt) => if reply.ok then [WroteReceipt(receipt)] else []
    case SaveReceipt(receipt, _) => if reply.ok then [WroteReceipt(receipt)] else []
    case SaveDecision(failed) =>
      if reply.ok then [WroteOperation(OperationOf(job.plan, if failed then RecordedBlocked else MergePending))] else []
    case SaveFinal(_) =>
      if !reply.ok then []
      else [WroteOperation(OperationOf(job.plan, if job.repair then RecordedRepaired else RecordedMerged))]
    case ReadTracking(_) => []
    case SaveOutcome(_) => []
  }

  lemma StepLogs(w: World, job: Job, point: Point, reply: Reply)
    ensures StepRun(w, job, point, reply).log == w.log + EntryOf(job, point, reply)
  {
    hide TrackingReady;
    hide ReadyToMerge;
    hide SameCandidate;
    hide IsSha;
    hide Effect;
  }

  lemma OnlyRequestMerges(w: World, h: Happening)
    requires Inv(w)
    requires !(w.run.Running? && w.run.point.RequestMerge?) || !h.Step?
    ensures Merges(Next(w, h).log) == Merges(w.log)
  {
    hide Merges;
    hide ValidJob;
    hide Separated;
    hide Outstanding;
    hide Genuine;
    hide StepRun;
    if h.Step? && w.run.Running? {
      var entries := EntryOf(w.run.job, w.run.point, h.reply);
      StepLogs(w, w.run.job, w.run.point, h.reply);
      if entries == [] {
        assert Next(w, h).log == w.log;
      } else {
        assert entries == [entries[0]];
        MergesAfter(w.log, entries[0]);
      }
    } else if h.Begin? && !w.run.Running? {
      MergesAfter(w.log, Began(h.job));
      assert Next(w, h).log == w.log + [Began(h.job)];
    }
  }

  /** A stored receipt is made from a pull request that was read as merged, with the exact candidate. */
  lemma StoredReceiptIsGenuine(w: World, hs: seq<Happening>)
    requires Fresh(w)
    ensures History(w, hs).receipt.Some? ==> Genuine(History(w, hs).log, History(w, hs).receipt.value)
  {
    hide History;
    HistoryInv(w, hs);
  }

  lemma ReceiptStays(w: World, h: Happening)
    requires Inv(w) && w.receipt.Some?
    ensures Next(w, h).receipt == w.receipt
  {
    hide Genuine;
    hide Separated;
    hide Outstanding;
    hide ValidJob;
    hide Planned;
    hide SameCandidate;
    hide IsSha;
    hide TrackingReady;
    hide ReadyToMerge;
  }

  /** Across all later runs and crashes it is never replaced by another. */
  lemma {:induction false} ReceiptIsNeverReplaced(w: World, hs: seq<Happening>, m: nat, n: nat)
    requires Fresh(w) && m <= n <= |hs| && History(w, hs[..m]).receipt.Some?
    ensures History(w, hs[..n]).receipt == History(w, hs[..m]).receipt
    decreases n
  {
    hide Next;
    if m < n {
      ReceiptIsNeverReplaced(w, hs, m, n - 1);
      HistoryInv(w, hs[..n - 1]);
      assert hs[..n][..n - 1] == hs[..n - 1];
      ReceiptStays(History(w, hs[..n - 1]), hs[n - 1]);
    }
  }

  /** What a run reports: a confirmed receipt is genuine and is never called blocked. */
  lemma OutcomeIsHonest(w: World, hs: seq<Happening>)
    requires Fresh(w) && History(w, hs).run.Ended?
    ensures var outcome := History(w, hs).run.outcome;
            && (outcome.receipt.Some? ==>
                  !outcome.decision.Blocked? && Genuine(History(w, hs).log, outcome.receipt.value))
            && (outcome.decision in {Merged, TrackingRepaired} ==>
                  outcome.receipt.Some? && History(w, hs).receipt == outcome.receipt)
  {
    hide History;
    hide Genuine;
    HistoryInv(w, hs);
  }
}
