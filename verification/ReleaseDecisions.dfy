/**
 When a run goes on and when it stops, decided on the fields of what it is given: the job, the two files, the pull
 request, the tracked item and the answers. Each point of the machine, in both directions, and then two whole runs.
 */
module ReleaseDecisions {
  import opened Wrappers
  import Texts
  import opened Release
  import opened ReleaseSafety
  import opened ReleaseStories
  import opened ReleaseControllers

  // ---------------------------------------------------------------- what may begin

  ghost predicate IsPlainText(text: string) {
    && |text| > 0 && text[0] !in {' ', '-'} && text[|text| - 1] != ' '
    && forall i | 0 <= i < |text| :: 32 <= text[i] as int && text[i] as int != 127
  }

  ghost predicate IsCompleteContext(c: Context) {
    && 0 < c.prNumber && 0 < c.issueNumber && 0 < c.projectNumber
    && IsPlainText(c.repository) && IsPlainText(c.baseBranch) && IsPlainText(c.headBranch)
    && IsPlainText(c.projectOwner) && IsPlainText(c.projectId) && IsPlainText(c.projectItemId)
    && IsPlainText(c.statusFieldId) && IsPlainText(c.reviewOptionId) && IsPlainText(c.doneOptionId)
    && IsPlainText(c.dependencyFieldId)
    && c.statusFieldId != c.dependencyFieldId && c.reviewOptionId != c.doneOptionId && c.headBranch != c.baseBranch
  }

  /** The plan is the one its manifest and context give, command by command. */
  ghost predicate IsRebuilt(plan: Plan, repair: bool) {
    var m, c := plan.manifest, plan.context;
    && IsCompleteContext(c) && m.repository == c.repository && IsCommitId(m.implementationSha)
    && IsPlainText(m.runId) && IsPlainText(m.taskId)
    && plan.repository == c.repository && plan.implementationSha == m.implementationSha
    && plan.evidenceSha256 == m.digest
    && plan.repairTracking == repair
    && plan.evidenceText == "Repository: " + c.repository + "; Issue: " + Texts.Decimal(c.issueNumber) + "; Task: "
                            + m.taskId + "; Run: " + m.runId + "; Candidate: " + m.implementationSha
                            + "; Evidence: sha256:" + m.digest
    && plan.beforeMerge == (if repair then [] else [ReviewUpdate(plan).command, TextUpdate(plan).command])
    && plan.requestMerge == (if repair then [] else [TheMerge(plan).command])
    && plan.afterMerge == if repair then [TextUpdate(plan).command, DoneUpdate(plan).command]
                          else [DoneUpdate(plan).command]
  }

  ghost predicate IsAdmissible(job: Job) {
    && IsRebuilt(job.plan, job.repair) && (job.execute ==> job.enabled)
    && job.evidencePassed && job.allowProject && (job.allowMerge || job.repair)
  }

  lemma PlainTexts(text: string)
    ensures IsPrintable(text) <==> IsPlainText(text)
  {
    assert forall i | 0 <= i < |text| :: text[i] in text;
  }

  lemma CompleteContexts(c: Context)
    ensures ValidContext(c) <==> IsCompleteContext(c)
  {
    hide IsPrintable, IsPlainText;
    forall text | text in TextsOf(c)
      ensures IsPrintable(text) <==> IsPlainText(text)
    {
      PlainTexts(text);
    }
  }

  lemma CommitIds(text: string)
    ensures IsSha(text) <==> IsCommitId(text)
  {
    assert forall i | 0 <= i < |text| :: text[i] in text;
  }

  lemma RebuiltPlans(plan: Plan, repair: bool)
    requires ValidContext(plan.context)
    ensures BuildPlan(plan.manifest, plan.context, repair) == Some(plan) <==> IsRebuilt(plan, repair)
  {
    hide IsPrintable, IsPlainText, IsSha, IsCommitId, ValidContext, IsCompleteContext;
    CompleteContexts(plan.context);
    CommitIds(plan.manifest.implementationSha);
    PlainTexts(plan.manifest.runId);
    PlainTexts(plan.manifest.taskId);
    ContextIsOfIssue(plan.context);
    EvidenceReads(plan.manifest, plan.context);
    hide EvidenceText;
    var m, c := plan.manifest, plan.context;
    assert [EvidenceUpdate(m, c)] + [StatusUpdate(c, c.doneOptionId)]
        == [EvidenceUpdate(m, c), StatusUpdate(c, c.doneOptionId)];
    assert [] + [StatusUpdate(c, c.doneOptionId)] == [StatusUpdate(c, c.doneOptionId)];
  }

  lemma ContextIsOfIssue(c: Context)
    requires ValidContext(c)
    ensures c.issueNumber > 0
  {
  }

  lemma EvidenceReads(m: Manifest, c: Context)
    requires c.issueNumber > 0
    ensures EvidenceText(m, c) == "Repository: " + c.repository + "; Issue: " + Texts.Decimal(c.issueNumber)
                                  + "; Task: " + m.taskId + "; Run: " + m.runId + "; Candidate: " + m.implementationSha
                                  + "; Evidence: sha256:" + m.digest
  {
  }

  lemma AdmissibleJobs(job: Job)
    ensures ValidJob(job) <==> IsAdmissible(job)
  {
    hide ValidContext, IsRebuilt, BuildPlan;
    CompleteContexts(job.plan.context);
    if ValidContext(job.plan.context) {
      RebuiltPlans(job.plan, job.repair);
    } else {
      assert !IsRebuilt(job.plan, job.repair) by { NotRebuilt(job.plan, job.repair); }
    }
  }

  lemma NotRebuilt(plan: Plan, repair: bool)
    requires !IsCompleteContext(plan.context)
    ensures !IsRebuilt(plan, repair)
  {
    hide IsCompleteContext;
  }

  /** The run is over: its outcome is to be written, or stands. */
  ghost predicate Concludes(run: RunState, job: Job, decision: Decision, receipt: Option<Receipt>) {
    var outcome := Outcome(decision, receipt);
    run == if job.execute && job.enabled then Running(job, SaveOutcome(outcome)) else Ended(job, outcome)
  }

  /** The record is of this candidate, under this context and this evidence. */
  ghost predicate IsOwnRecord(op: Operation, plan: Plan) {
    op.context == plan.context && op.candidate == plan.implementationSha && op.evidence == plan.evidenceSha256
  }

  ghost predicate AsksForMerge(decision: Recorded) {
    decision.MergeRequested? || decision.MergePending?
  }

  /** An invocation looks at its job and at the two files, in this order. */
  lemma BeginDecides(w: World, job: Job)
    requires !w.run.Running?
    ensures var run := Next(w, Begin(job)).run;
      if !IsAdmissible(job) then Concludes(run, job, Blocked, None)
      else if job.repair then run == Running(job, ReadPr)
      else if w.receipt.Some? then Concludes(run, job, Blocked, None)
      else if w.operation.Some? && !IsOwnRecord(w.operation.value, job.plan) then Concludes(run, job, Blocked, None)
      else if w.operation.Some? && AsksForMerge(w.operation.value.decision) then run == Running(job, ReadPending)
      else run == Running(job, ReadPr)
  {
    hide ValidJob, IsAdmissible;
    AdmissibleJobs(job);
  }

  // ---------------------------------------------------------------- what a run goes on from

  lemma PendingDecides(w: World, job: Job, reply: Reply)
    requires w.run == Running(job, ReadPending)
    ensures var run := Next(w, Step(reply)).run;
      if reply.pr.Some? && IsStillOpen(reply.pr.value, job.plan) then Concludes(run, job, Pending, None)
      else Concludes(run, job, Blocked, None)
  {
    hide SameCandidate, NamesTheCandidate;
    if reply.pr.Some? {
      GuardsAreSpelled(reply.pr.value, job.plan);
    }
  }

  lemma PrDecides(w: World, job: Job, reply: Reply)
    requires w.run == Running(job, ReadPr)
    ensures var run := Next(w, Step(reply)).run;
      if reply.pr.Some?
         && (if job.repair then IsMerged(reply.pr.value, job.plan) else IsReady(reply.pr.value, job.plan))
      then run == Running(job, ReadTracking(reply.pr.value))
      else Concludes(run, job, Blocked, None)
  {
    hide ReadyToMerge, ConfirmedMerged, IsReady, IsMerged;
    if reply.pr.Some? {
      GuardsAreSpelled(reply.pr.value, job.plan);
    }
  }

  lemma RecheckDecides(w: World, job: Job, reply: Reply)
    requires w.run == Running(job, Recheck)
    ensures var run := Next(w, Step(reply)).run;
      if reply.pr.Some? && IsReady(reply.pr.value, job.plan) then run == Running(job, SaveRequested)
      else Concludes(run, job, Blocked, None)
  {
    hide ReadyToMerge, IsReady;
    if reply.pr.Some? {
      GuardsAreSpelled(reply.pr.value, job.plan);
    }
  }

  ghost predicate Shows(fields: Fields, itemId: string, fieldId: string, value: string) {
    (itemId, fieldId) in fields && fields[(itemId, fieldId)] == value
  }

  /** The item has a status, which is not the last one, and carries the text. */
  ghost predicate IsUnderReview(fields: Fields, plan: Plan) {
    var c := plan.context;
    && (c.projectItemId, c.statusFieldId) in fields
    && !Shows(fields, c.projectItemId, c.statusFieldId, c.doneOptionId)
    && Shows(fields, c.projectItemId, c.dependencyFieldId, plan.evidenceText)
  }

  /** The first edit of a normal run needs the item in this state. */
  lemma TrackingDecides(w: World, job: Job, pr: PullRequest, reply: Reply)
    requires w.run == Running(job, ReadTracking(pr)) && !job.repair
    ensures var run := Next(w, Step(reply)).run;
      if !reply.ok || !IsUnderReview(w.fields, job.plan) then Concludes(run, job, Blocked, None)
      else if !job.execute then Concludes(run, job, Validated, None)
      else run == Running(job, BeforeMerge(0))
  {
  }

  /** A repair stops at another receipt; it writes the updates whose fields do not show their values yet. */
  lemma RepairDecides(w: World, job: Job, pr: PullRequest, reply: Reply)
    requires w.run == Running(job, ReadTracking(pr)) && job.repair && Planned(job)
    requires pr.mergeCommit.Some? && pr.mergedAt.Some?
    ensures var run, receipt, c := Next(w, Step(reply)).run, ReceiptFrom(job.plan, pr), job.plan.context;
      if w.receipt !in {None, Some(receipt)} then Concludes(run, job, Blocked, None)
      else if !reply.ok || (c.projectItemId, c.statusFieldId) !in w.fields then
        if job.execute then run == Running(job, SaveConfirmed(receipt))
        else Concludes(run, job, MergedTrackingFailed, Some(receipt))
      else if !job.execute then Concludes(run, job, Validated, None)
      else
        && run.Running? && run.point.SaveReceipt? && run.point.receipt == receipt && run.job == job
        && var text, done := TextUpdate(job.plan).command, DoneUpdate(job.plan).command;
        && run.point.mutations
           == (if Shows(w.fields, c.projectItemId, c.dependencyFieldId, job.plan.evidenceText) then [] else [text])
              + (if Shows(w.fields, c.projectItemId, c.statusFieldId, c.doneOptionId) then [] else [done])
  {
    hide IsSha, SameCandidate;
  }

  /** After the request only a reading decides, and a request that failed is recorded as blocked. */
  lemma ConfirmDecides(w: World, job: Job, failed: bool, reply: Reply)
    requires w.run == Running(job, Confirm(failed)) && Planned(job) && !job.repair
    ensures var run := Next(w, Step(reply)).run;
      if reply.pr.Some? && IsStillOpen(reply.pr.value, job.plan) then run == Running(job, SaveDecision(failed))
      else if reply.pr.Some? && IsMerged(reply.pr.value, job.plan)
      then run == Running(job, SaveReceipt(ReceiptFrom(job.plan, reply.pr.value), [DoneUpdate(job.plan).command]))
      else Concludes(run, job, Blocked, None)
  {
    hide SameCandidate, ConfirmedMerged, NamesTheCandidate, IsCommitId;
    if reply.pr.Some? {
      GuardsAreSpelled(reply.pr.value, job.plan);
    }
  }

  lemma DecisionIsRecorded(w: World, job: Job, failed: bool, reply: Reply)
    requires w.run == Running(job, SaveDecision(failed))
    ensures var after := Next(w, Step(reply));
      if !reply.ok then Concludes(after.run, job, Blocked, None) && after.operation == w.operation
      else && Concludes(after.run, job, if failed then Blocked else Pending, None)
           && after.operation == Some(Operation(job.plan.context, job.plan.implementationSha, job.plan.evidenceSha256,
                                                if failed then RecordedBlocked else MergePending))
  {
  }

  // ---------------------------------------------------------------- two whole runs

  /** A normal run that may start: nothing is stored that stops it, and the item is under review. */
  ghost predicate MayRun(w: World, job: Job) {
    && !w.run.Running? && IsAdmissible(job) && !job.repair && job.execute && w.receipt.None?
    && (w.operation.Some? ==> IsOwnRecord(w.operation.value, job.plan) && !AsksForMerge(w.operation.value.decision))
    && IsUnderReview(w.fields, job.plan)
  }

  /** Six answers that lead to the request: ready, readable, two edits accepted, ready again, the record saved. */
  ghost predicate LeadToRequest(plan: Plan, replies: seq<Reply>) {
    && |replies| == 6
    && replies[0].pr.Some? && IsReady(replies[0].pr.value, plan) && replies[1].ok && replies[2].ok && replies[3].ok
    && replies[4].pr.Some? && IsReady(replies[4].pr.value, plan) && replies[5].ok
  }

  lemma {:induction false} FedTwice(w: World, a: seq<Reply>, b: seq<Reply>)
    ensures Fed(w, a + b) == Fed(Fed(w, a), b)
    decreases |a|
  {
    hide Next;
    if a == [] {
      assert a + b == b;
    } else {
      assert (a + b)[0] == a[0] && (a + b)[1..] == a[1..] + b;
      FedTwice(Next(w, Step(a[0])), a[1..], b);
    }
  }

  lemma FedOne(w: World, reply: Reply)
    ensures Fed(w, [reply]) == Next(w, Step(reply))
  {
    hide Next;
    assert [reply][1..] == [] && Fed(Next(w, Step(reply)), []) == Next(w, Step(reply));
  }

  lemma EditStep(w: World, job: Job, i: nat, reply: Reply)
    requires w.run == Running(job, BeforeMerge(i)) && Planned(job) && !job.repair && i < 2 && reply.ok
    ensures var after, c := Next(w, Step(reply)), job.plan.context;
      && after.run == Running(job, if i == 0 then BeforeMerge(1) else Recheck)
      && after.receipt == w.receipt && after.operation == w.operation
      && after.fields == w.fields[(c.projectItemId, if i == 0 then c.statusFieldId else c.dependencyFieldId) :=
                                    if i == 0 then c.reviewOptionId else job.plan.evidenceText]
  {
  }

  lemma RequestIsSaved(w: World, job: Job, reply: Reply)
    requires w.run == Running(job, SaveRequested) && reply.ok
    ensures Next(w, Step(reply)).run == Running(job, RequestMerge)
    ensures SameStores(Next(w, Step(reply)), w.(operation := Next(w, Step(reply)).operation))
  {
  }

  lemma TrackingReadsOnly(w: World, job: Job, pr: PullRequest, reply: Reply)
    requires w.run == Running(job, ReadTracking(pr))
    ensures SameStores(Next(w, Step(reply)), w)
  {
    hide TrackingReady, Repairs, ReceiptOf;
  }

  lemma BeginStores(w: World, job: Job)
    requires !w.run.Running?
    ensures SameStores(Next(w, Begin(job)), w)
  {
    hide ValidJob, SameOperation;
  }

  lemma AdmissibleIsPlanned(job: Job)
    requires IsAdmissible(job)
    ensures Planned(job)
  {
    hide IsAdmissible, ValidJob;
    AdmissibleJobs(job);
    ValidJobIsPlanned(job);
  }

  /** Such a run, so answered, comes to the request. */
  lemma ReachesTheRequest(w: World, job: Job, replies: seq<Reply>)
    requires MayRun(w, job) && LeadToRequest(job.plan, replies)
    ensures var after, c := Fed(Next(w, Begin(job)), replies), job.plan.context;
      && after.run == Running(job, RequestMerge) && after.receipt.None?
      && Shows(after.fields, c.projectItemId, c.dependencyFieldId, job.plan.evidenceText)
  {
    hide Next, Fed, IsReady, Planned, IsOwnRecord, AsksForMerge, IsRebuilt;
    AdmissibleIsPlanned(job);
    var w0 := Next(w, Begin(job));
    BeginDecides(w, job);
    BeginStores(w, job);
    var w1 := Next(w0, Step(replies[0]));
    PrDecides(w0, job, replies[0]);
    ReadsChangeNothing(w0);
    var w2 := Next(w1, Step(replies[1]));
    TrackingDecides(w1, job, replies[0].pr.value, replies[1]);
    TrackingReadsOnly(w1, job, replies[0].pr.value, replies[1]);
    var w3, w4 := Next(w2, Step(replies[2])), Next(Next(w2, Step(replies[2])), Step(replies[3]));
    EditStep(w2, job, 0, replies[2]);
    EditStep(w3, job, 1, replies[3]);
    var w5 := Next(w4, Step(replies[4]));
    RecheckDecides(w4, job, replies[4]);
    ReadsChangeNothing(w4);
    RequestIsSaved(w5, job, replies[5]);
    SixSteps(w0, replies);
  }

  lemma SixSteps(w: World, replies: seq<Reply>)
    requires |replies| == 6
    ensures Fed(w, replies) == Next(Next(Next(Next(Next(Next(w, Step(replies[0])), Step(replies[1])), Step(replies[2])),
                                              Step(replies[3])), Step(replies[4])), Step(replies[5]))
  {
    hide Next, Fed;
    assert replies == replies[..3] + replies[3..];
    FedTwice(w, replies[..3], replies[3..]);
    ThreeSteps(w, replies[..3]);
    ThreeSteps(Fed(w, replies[..3]), replies[3..]);
  }

  lemma ThreeSteps(w: World, replies: seq<Reply>)
    requires |replies| == 3
    ensures Fed(w, replies) == Next(Next(Next(w, Step(replies[0])), Step(replies[1])), Step(replies[2]))
  {
    hide Next, Fed;
    assert replies == [replies[0]] + ([replies[1]] + [replies[2]]);
    FedTwice(w, [replies[0]], [replies[1]] + [replies[2]]);
    FedOne(w, replies[0]);
    FedTwice(Next(w, Step(replies[0])), [replies[1]], [replies[2]]);
    FedOne(Next(w, Step(replies[0])), replies[1]);
    FedOne(Next(Next(w, Step(replies[0])), Step(replies[1])), replies[2]);
  }

  lemma MergeStep(w: World, job: Job, reply: Reply)
    requires w.run == Running(job, RequestMerge) && Planned(job) && !job.repair
    ensures Next(w, Step(reply)).run == Running(job, Confirm(!reply.ok)) && SameStores(Next(w, Step(reply)), w)
  {
  }

  /** With the receipt to store: stored, marked as done, recorded, reported. */
  lemma LastSteps(w: World, job: Job, receipt: Receipt, replies: seq<Reply>)
    requires w.run == Running(job, SaveReceipt(receipt, [DoneUpdate(job.plan).command]))
    requires !job.repair && job.execute && job.enabled && |replies| == 4 && forall reply | reply in replies :: reply.ok
    ensures var after, c := Fed(w, replies), job.plan.context;
      && after.run == Ended(job, Outcome(Merged, Some(receipt))) && after.receipt == Some(receipt)
      && after.operation == Some(Operation(c, job.plan.implementationSha, job.plan.evidenceSha256, RecordedMerged))
      && after.fields == w.fields[(c.projectItemId, c.statusFieldId) := c.doneOptionId]
  {
    hide Fed, Next;
    assert replies[0] in replies && replies[1] in replies && replies[2] in replies && replies[3] in replies;
    var w1 := Next(w, Step(replies[0]));
    ReceiptIsStored(w, job, receipt, replies[0]);
    var w2 := Next(w1, Step(replies[1]));
    DoneIsShown(w1, job, receipt, replies[1]);
    var w3 := Next(w2, Step(replies[2]));
    MergeIsRecorded(w2, job, receipt, replies[2]);
    OutcomeIsSaved(w3, job, replies[3]);
    assert replies == replies[..3] + [replies[3]];
    FedTwice(w, replies[..3], [replies[3]]);
    ThreeSteps(w, replies[..3]);
    FedOne(Fed(w, replies[..3]), replies[3]);
  }

  lemma ReceiptIsStored(w: World, job: Job, receipt: Receipt, reply: Reply)
    requires w.run == Running(job, SaveReceipt(receipt, [DoneUpdate(job.plan).command])) && reply.ok
    ensures var after := Next(w, Step(reply));
      && after.run == Running(job, AfterMerge(receipt, [DoneUpdate(job.plan).command], 0))
      && SameStores(after, w.(receipt := Some(receipt)))
  {
  }

  lemma DoneIsShown(w: World, job: Job, receipt: Receipt, reply: Reply)
    requires w.run == Running(job, AfterMerge(receipt, [DoneUpdate(job.plan).command], 0)) && reply.ok
    ensures var after, c := Next(w, Step(reply)), job.plan.context;
      && after.run == Running(job, SaveFinal(receipt))
      && SameStores(after, w.(fields := w.fields[(c.projectItemId, c.statusFieldId) := c.doneOptionId]))
  {
  }

  lemma MergeIsRecorded(w: World, job: Job, receipt: Receipt, reply: Reply)
    requires w.run == Running(job, SaveFinal(receipt)) && reply.ok && !job.repair && job.execute && job.enabled
    ensures var after, p := Next(w, Step(reply)), job.plan;
      && after.run == Running(job, SaveOutcome(Outcome(Merged, Some(receipt))))
      && SameStores(after, w.(operation := Some(Operation(p.context, p.implementationSha, p.evidenceSha256,
                                                          RecordedMerged))))
  {
  }

  /** A normal run that is answered well is merged, tracked and recorded, with the receipt of what it read. */
  lemma NormalRunCompletes(w: World, job: Job, replies: seq<Reply>)
    requires MayRun(w, job) && |replies| == 12 && LeadToRequest(job.plan, replies[..6])
    requires replies[7].pr.Some? && IsMerged(replies[7].pr.value, job.plan)
    requires forall i | 8 <= i < 12 :: replies[i].ok
    ensures var after, c := Fed(Next(w, Begin(job)), replies), job.plan.context;
      var receipt := ReceiptFrom(job.plan, replies[7].pr.value);
      && after.run == Ended(job, Outcome(Merged, Some(receipt))) && after.receipt == Some(receipt)
      && after.operation == Some(Operation(c, job.plan.implementationSha, job.plan.evidenceSha256, RecordedMerged))
      && Shows(after.fields, c.projectItemId, c.statusFieldId, c.doneOptionId)
      && Shows(after.fields, c.projectItemId, c.dependencyFieldId, job.plan.evidenceText)
  {
    hide Next, Fed, IsMerged, IsReady, IsStillOpen, Planned;
    AdmissibleIsPlanned(job);
    FieldsDiffer(job);
    MergedIsNotOpen(replies[7].pr.value, job.plan);
    var w0 := Next(w, Begin(job));
    ReachesTheRequest(w, job, replies[..6]);
    var w8 := Requested(w0, job, replies);
    LastSteps(w8, job, ReceiptFrom(job.plan, replies[7].pr.value), replies[8..]);
    assert replies == replies[..8] + replies[8..];
    FedTwice(w0, replies[..8], replies[8..]);
  }

  lemma MergedIsNotOpen(pr: PullRequest, plan: Plan)
    requires IsMerged(pr, plan)
    ensures !IsStillOpen(pr, plan) && pr.mergeCommit.Some? && pr.mergedAt.Some?
  {
  }

  lemma FieldsDiffer(job: Job)
    requires Planned(job)
    ensures job.plan.context.statusFieldId != job.plan.context.dependencyFieldId
  {
  }

  lemma Requested(w0: World, job: Job, replies: seq<Reply>) returns (after: World)
    requires Planned(job) && !job.repair && |replies| >= 8 && Fed(w0, replies[..6]).run == Running(job, RequestMerge)
    ensures after == Fed(w0, replies[..8])
    ensures SameStores(after, Fed(w0, replies[..6]))
    ensures var pr, failed := replies[7].pr, !replies[6].ok;
      if pr.Some? && IsStillOpen(pr.value, job.plan) then after.run == Running(job, SaveDecision(failed))
      else if pr.Some? && IsMerged(pr.value, job.plan)
      then after.run == Running(job, SaveReceipt(ReceiptFrom(job.plan, pr.value), [DoneUpdate(job.plan).command]))
      else Concludes(after.run, job, Blocked, None)
  {
    hide Next, Fed, IsMerged, IsStillOpen, Planned;
    var w6 := Fed(w0, replies[..6]);
    var w7 := Next(w6, Step(replies[6]));
    MergeStep(w6, job, replies[6]);
    after := Next(w7, Step(replies[7]));
    ConfirmDecides(w7, job, !replies[6].ok, replies[7]);
    ReadsChangeNothing(w7);
    assert replies[..8] == replies[..6] + ([replies[6]] + [replies[7]]);
    FedTwice(w0, replies[..6], [replies[6]] + [replies[7]]);
    FedTwice(w6, [replies[6]], [replies[7]]);
    FedOne(w6, replies[6]);
    FedOne(w7, replies[7]);
  }

  /**
   A normal run whose merge is still open when it looks: an accepted request is pending and a failed one blocked,
   in the report and in the record.
   */
  lemma OpenMergeIsPending(w: World, job: Job, replies: seq<Reply>)
    requires MayRun(w, job) && |replies| == 10 && LeadToRequest(job.plan, replies[..6])
    requires replies[7].pr.Some? && IsStillOpen(replies[7].pr.value, job.plan) && replies[8].ok && replies[9].ok
    ensures var after := Fed(Next(w, Begin(job)), replies);
      && after.run == Ended(job, Outcome(if replies[6].ok then Pending else Blocked, None)) && after.receipt.None?
      && after.operation == Some(Operation(job.plan.context, job.plan.implementationSha, job.plan.evidenceSha256,
                                           if replies[6].ok then MergePending else RecordedBlocked))
  {
    hide Next, Fed, IsMerged, IsReady, IsStillOpen, Planned;
    AdmissibleIsPlanned(job);
    var w0 := Next(w, Begin(job));
    ReachesTheRequest(w, job, replies[..6]);
    var w8 := Requested(w0, job, replies);
    var w9 := Next(w8, Step(replies[8]));
    DecisionIsRecorded(w8, job, !replies[6].ok, replies[8]);
    DecisionKeepsReceipt(w8, job, !replies[6].ok, replies[8]);
    OutcomeIsSaved(w9, job, replies[9]);
    assert replies == replies[..8] + ([replies[8]] + [replies[9]]);
    FedTwice(w0, replies[..8], [replies[8]] + [replies[9]]);
    FedTwice(w8, [replies[8]], [replies[9]]);
    FedOne(w8, replies[8]);
    FedOne(w9, replies[9]);
  }

  lemma DecisionKeepsReceipt(w: World, job: Job, failed: bool, reply: Reply)
    requires w.run == Running(job, SaveDecision(failed))
    ensures Next(w, Step(reply)).receipt == w.receipt
  {
  }

  lemma OutcomeIsSaved(w: World, job: Job, reply: Reply)
    requires w.run.Running? && w.run.job == job && w.run.point.SaveOutcome? && reply.ok
    ensures Next(w, Step(reply)) == w.(run := Ended(job, w.run.point.outcome))
  {
  }
}
