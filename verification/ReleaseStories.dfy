/**
 What one run of the controller does, entry by entry, and what it must have read first. Nothing here names the
 guards of the machine: what a pull request has to look like, what a job has to be and what the commands are is
 spelled out on their fields.
 */
module ReleaseStories {
  import opened Wrappers
  import opened Release
  import opened ReleaseSafety

  // ---------------------------------------------------------------- what is read

  ghost predicate NamesTheCandidate(pr: PullRequest, plan: Plan) {
    && pr.number == Some(plan.context.prNumber) && pr.headRefOid == Some(plan.implementationSha)
    && pr.headRefName == Some(plan.context.headBranch) && pr.baseRefName == Some(plan.context.baseBranch)
  }

  /** Open, no draft, mergeable, and every one of at least one check a success. */
  ghost predicate IsReady(pr: PullRequest, plan: Plan) {
    && NamesTheCandidate(pr, plan) && pr.state == "OPEN" && pr.isDraft == Some(false)
    && pr.mergeStateStatus in {"CLEAN", "HAS_HOOKS"}
    && pr.checks.Some? && |pr.checks.value| > 0
    && forall i | 0 <= i < |pr.checks.value| ::
         pr.checks.value[i] in {CheckRun("COMPLETED", "SUCCESS"), StatusContext("SUCCESS")}
  }

  ghost predicate IsCommitId(text: string) {
    |text| == 40 && forall i | 0 <= i < 40 :: '0' <= text[i] <= '9' || 'a' <= text[i] <= 'f'
  }

  ghost predicate IsMerged(pr: PullRequest, plan: Plan) {
    && NamesTheCandidate(pr, plan) && pr.state == "MERGED"
    && pr.mergedAt.Some? && pr.mergedAt.value != "" && pr.mergeCommit.Some? && IsCommitId(pr.mergeCommit.value)
  }

  ghost predicate IsStillOpen(pr: PullRequest, plan: Plan) {
    NamesTheCandidate(pr, plan) && pr.state == "OPEN"
  }

  lemma GuardsAreSpelled(pr: PullRequest, plan: Plan)
    ensures ReadyToMerge(pr, plan.context, plan.implementationSha) <==> IsReady(pr, plan)
    ensures ConfirmedMerged(pr, plan.context, plan.implementationSha) <==> IsMerged(pr, plan)
    ensures SameCandidate(pr, plan.context, plan.implementationSha) <==> NamesTheCandidate(pr, plan)
  {
    if pr.checks.Some? {
      var checks := pr.checks.value;
      assert forall i | 0 <= i < |checks| :: checks[i] in checks;
    }
    if pr.mergeCommit.Some? {
      assert forall i | 0 <= i < |pr.mergeCommit.value| :: pr.mergeCommit.value[i] in pr.mergeCommit.value;
    }
  }

  // ---------------------------------------------------------------- the entries of a run

  /** What the run has done since it began. */
  function SinceBegun(log: seq<Entry>): seq<Entry> {
    if log == [] || log[|log| - 1].Began? then [] else SinceBegun(log[..|log| - 1]) + [log[|log| - 1]]
  }

  function Update(c: Context, fieldId: string, flag: Flag, value: string): Entry {
    Issued(Edit(c.projectItemId, c.projectId, fieldId, flag, value))
  }

  function ReviewUpdate(plan: Plan): Entry {
    Update(plan.context, plan.context.statusFieldId, SingleSelectOptionId, plan.context.reviewOptionId)
  }

  function TextUpdate(plan: Plan): Entry {
    Update(plan.context, plan.context.dependencyFieldId, Text, plan.evidenceText)
  }

  function DoneUpdate(plan: Plan): Entry {
    Update(plan.context, plan.context.statusFieldId, SingleSelectOptionId, plan.context.doneOptionId)
  }

  function TheMerge(plan: Plan): Entry {
    Issued(Merge(plan.context.prNumber, plan.context.repository, plan.implementationSha))
  }

  function Recording(plan: Plan, decision: Recorded): Entry {
    WroteOperation(Operation(plan.context, plan.implementationSha, plan.evidenceSha256, decision))
  }

  function ReceiptFrom(plan: Plan, pr: PullRequest): Receipt
    requires pr.mergeCommit.Some? && pr.mergedAt.Some?
  {
    Receipt(plan.context.repository, plan.context.prNumber, plan.context, plan.implementationSha, plan.evidenceSha256,
            plan.context.baseBranch, pr.mergeCommit.value, pr.mergedAt.value)
  }

  /**
   A normal run, as far as it got: a ready pull request, marked for review, the text written, ready once more,
   the request written down, the merge; then either still open and recorded as pending or blocked, or merged, with
   the receipt of that very reading stored, the item marked as done and the merge recorded.
   */
  ghost predicate NormalStory(plan: Plan, log: seq<Entry>) {
    var n := |log|;
    && n <= 10
    && (n > 0 ==> log[0].SawPr?)
    && (n > 1 ==> IsReady(log[0].pr, plan) && log[1] == ReviewUpdate(plan))
    && (n > 2 ==> log[2] == TextUpdate(plan))
    && (n > 3 ==> log[3].SawPr?)
    && (n > 4 ==> IsReady(log[3].pr, plan) && log[4] == Recording(plan, MergeRequested))
    && (n > 5 ==> log[5] == TheMerge(plan))
    && (n > 6 ==> log[6].SawPr?)
    && (n > 7 ==> log[7].WroteOperation? || log[7].WroteReceipt?)
    && (n == 8 && log[7].WroteOperation? ==>
          IsStillOpen(log[6].pr, plan) && log[7] in {Recording(plan, MergePending), Recording(plan, RecordedBlocked)})
    && (n > 8 || (n == 8 && log[7].WroteReceipt?) ==>
          IsMerged(log[6].pr, plan) && log[7] == WroteReceipt(ReceiptFrom(plan, log[6].pr)))
    && (n > 8 ==> log[8] == DoneUpdate(plan))
    && (n > 9 ==> log[9] == Recording(plan, RecordedMerged))
  }

  /** A repair, as far as it got: a merged pull request, its receipt, the updates that are needed, the record. */
  ghost predicate RepairStory(plan: Plan, log: seq<Entry>) {
    var n, end := |log|, Recording(plan, RecordedRepaired);
    && n <= 5
    && (n > 0 ==> log[0].SawPr?)
    && (n > 1 ==> IsMerged(log[0].pr, plan) && log[1] == WroteReceipt(ReceiptFrom(plan, log[0].pr)))
    && (n == 3 ==> log[2] in {TextUpdate(plan), DoneUpdate(plan), end})
    && (n == 4 ==> (log[2], log[3]) in {(TextUpdate(plan), DoneUpdate(plan)), (TextUpdate(plan), end),
                                        (DoneUpdate(plan), end)})
    && (n == 5 ==> log[2] == TextUpdate(plan) && log[3] == DoneUpdate(plan) && log[4] == end)
  }

  ghost predicate Story(job: Job, log: seq<Entry>) {
    if job.repair then RepairStory(job.plan, log) else NormalStory(job.plan, log)
  }

  /** The reading that a receipt is made from. */
  ghost predicate ReadMerged(job: Job, log: seq<Entry>, receipt: Receipt) {
    var k := if job.repair then 0 else 6;
    |log| > k && log[k].SawPr? && IsMerged(log[k].pr, job.plan) && receipt == ReceiptFrom(job.plan, log[k].pr)
  }

  /** What an outcome says of the story of its run. */
  ghost predicate Tells(job: Job, log: seq<Entry>, outcome: Outcome) {
    && Story(job, log)
    && (outcome.receipt.Some? ==> ReadMerged(job, log, outcome.receipt.value))
    && match outcome.decision
       case Blocked => outcome.receipt.None?
       case Validated =>
         && !job.execute && |log| == 1
         && if job.repair then IsMerged(log[0].pr, job.plan) else IsReady(log[0].pr, job.plan)
       case Pending =>
         !job.repair && (|| (|log| == 1 && IsStillOpen(log[0].pr, job.plan))
                         || (|log| == 8 && log[7] == Recording(job.plan, MergePending)))
       case Merged => !job.repair && |log| == 10 && outcome.receipt.Some?
       case TrackingRepaired =>
         job.repair && |log| >= 3 && log[|log| - 1] == Recording(job.plan, RecordedRepaired) && outcome.receipt.Some?
       case MergedTrackingFailed => outcome.receipt.Some?
  }

  /** How far the story has come at each point. */
  ghost predicate StoryAt(job: Job, log: seq<Entry>, point: Point) {
    && Story(job, log)
    && match point
       case ReadPending => !job.repair && log == []
       case ReadPr => log == []
       case ReadTracking(pr) =>
         log == [SawPr(pr)] && if job.repair then IsMerged(pr, job.plan) else IsReady(pr, job.plan)
       case BeforeMerge(i) => !job.repair && job.execute && |log| == 1 + i < 3 && IsReady(log[0].pr, job.plan)
       case Recheck => !job.repair && job.execute && |log| == 3
       case SaveRequested => !job.repair && job.execute && |log| == 4 && IsReady(log[3].pr, job.plan)
       case RequestMerge => !job.repair && job.execute && |log| == 5
       case Confirm(_) => !job.repair && job.execute && |log| == 6
       case SaveDecision(_) => !job.repair && job.execute && |log| == 7 && IsStillOpen(log[6].pr, job.plan)
       case SaveConfirmed(receipt) => job.repair && |log| == 1 && ReadMerged(job, log, receipt)
       case SaveReceipt(receipt, mutations) =>
         && |log| == (if job.repair then 1 else 7) && ReadMerged(job, log, receipt) && Mutations(job, mutations)
       case AfterMerge(receipt, mutations, i) =>
         && i < |mutations| && Mutations(job, mutations) && ReadMerged(job, log, receipt)
         && |log| == (if job.repair then 2 else 8) + i && MutationsDone(job, log, mutations, i)
         && (job.repair || log[7].WroteReceipt?)
       case SaveFinal(receipt) =>
         && ReadMerged(job, log, receipt)
         && if !job.repair then |log| == 9
            else 2 <= |log| <= 4 && forall i | 2 <= i < |log| :: log[i].Issued?
       case SaveOutcome(outcome) => Tells(job, log, outcome)
  }

  /** The updates still to be made when the receipt is stored. */
  ghost predicate Mutations(job: Job, mutations: seq<Command>) {
    var text, done := TextUpdate(job.plan).command, DoneUpdate(job.plan).command;
    mutations in (if job.repair then {[], [text], [done], [text, done]} else {[done]})
  }

  ghost predicate MutationsDone(job: Job, log: seq<Entry>, mutations: seq<Command>, i: nat)
    requires i <= |mutations|
  {
    var k := if job.repair then 2 else 8;
    |log| >= k + i && forall j | 0 <= j < i :: log[k + j] == Issued(mutations[j])
  }

  ghost predicate StoryInv(w: World) {
    match w.run
    case Idle => true
    case Running(job, point) => StoryAt(job, SinceBegun(w.log), point)
    case Ended(job, outcome) => Tells(job, SinceBegun(w.log), outcome)
  }

  lemma OneMoreEntry(log: seq<Entry>, entries: seq<Entry>)
    requires |entries| <= 1 && forall x | x in entries :: !x.Began?
    ensures SinceBegun(log + entries) == SinceBegun(log) + entries
  {
    if entries == [] {
      assert log + entries == log;
    } else {
      assert entries[0] in entries && (log + entries)[..|log|] == log;
      assert [entries[0]] == entries;
    }
  }

  lemma BegunAnew(log: seq<Entry>, job: Job)
    ensures SinceBegun(log + [Began(job)]) == []
  {
  }

  lemma StoryBegins(w: World, job: Job)
    requires !w.run.Running?
    ensures StoryInv(BeginRun(w, job))
  {
    hide ValidJob, SameOperation;
    BegunAnew(w.log, job);
  }

  lemma StorySteps(w: World, job: Job, point: Point, reply: Reply)
    requires StoryInv(w) && w.run == Running(job, point) && (!point.SaveOutcome? ==> Planned(job))
    ensures StoryInv(StepRun(w, job, point, reply))
  {
    hide StepRun, Planned, StoryAt;
    StepLogs(w, job, point, reply);
    OneEntry(job, point, reply);
    OneMoreEntry(w.log, EntryOf(job, point, reply));
    match point
    case ReadPending => PendingStory(w, job, reply);
    case ReadPr => PrStory(w, job, reply);
    case ReadTracking(pr) => TrackingStory(w, job, pr, reply);
    case Recheck => RecheckStory(w, job, reply);
    case Confirm(failed) => ConfirmStory(w, job, failed, reply);
    case AfterMerge(_, _, _) => AfterStory(w, job, point, reply);
    case SaveOutcome(_) => SavedStory(w, job, point, reply);
    case SaveConfirmed(_) => ReceiptStory(w, job, point, reply);
    case SaveReceipt(_, _) => ReceiptStory(w, job, point, reply);
    case SaveFinal(_) => FinalStory(w, job, point, reply);
    case BeforeMerge(i) => BeforeStory(w, job, i, reply);
    case SaveDecision(failed) => DecisionStory(w, job, failed, reply);
    case _ => RequestStory(w, job, point, reply);
  }

  lemma OneEntry(job: Job, point: Point, reply: Reply)
    ensures |EntryOf(job, point, reply)| <= 1 && forall x | x in EntryOf(job, point, reply) :: !x.Began?
  {
  }

  /** The shape that the lemmas on single points share. */
  ghost predicate At1(w: World, job: Job, point: Point, reply: Reply) {
    && w.run == Running(job, point) && StoryAt(job, SinceBegun(w.log), point)
    && SinceBegun(StepRun(w, job, point, reply).log) == SinceBegun(w.log) + EntryOf(job, point, reply)
  }

  lemma PendingStory(w: World, job: Job, reply: Reply)
    requires At1(w, job, ReadPending, reply)
    ensures StoryInv(StepRun(w, job, ReadPending, reply))
  {
    hide OnPr, OnTracking, OnBefore, OnRecheck, OnRequestMerge, OnConfirm;
    hide OnSaveDecision, OnAfter, OnSaveFinal, OnSaveOutcome;
    hide SinceBegun, SameCandidate, NamesTheCandidate;
    if reply.pr.Some? {
      GuardsAreSpelled(reply.pr.value, job.plan);
    }
  }

  lemma PrStory(w: World, job: Job, reply: Reply)
    requires At1(w, job, ReadPr, reply)
    ensures StoryInv(StepRun(w, job, ReadPr, reply))
  {
    hide OnPending, OnTracking, OnBefore, OnRecheck, OnRequestMerge, OnConfirm;
    hide OnSaveDecision, OnAfter, OnSaveFinal, OnSaveOutcome;
    hide SinceBegun, ReadyToMerge, ConfirmedMerged, IsReady, IsMerged;
    if reply.pr.Some? {
      GuardsAreSpelled(reply.pr.value, job.plan);
    }
  }

  lemma TrackingStory(w: World, job: Job, pr: PullRequest, reply: Reply)
    requires At1(w, job, ReadTracking(pr), reply) && Planned(job)
    ensures StoryInv(StepRun(w, job, ReadTracking(pr), reply))
  {
    hide OnPending, OnPr, OnBefore, OnRecheck, OnRequestMerge, OnConfirm;
    hide OnSaveDecision, OnAfter, OnSaveFinal, OnSaveOutcome;
    hide SinceBegun, TrackingReady, IsReady, NamesTheCandidate, IsCommitId, Repairs;
    if job.repair {
      RepairsAreUpdates(w.fields, job);
    }
  }

  lemma RepairsAreUpdates(fields: Fields, job: Job)
    requires Planned(job) && job.repair
    ensures |job.plan.afterMerge| == 2 && Mutations(job, Repairs(fields, job.plan))
  {
    var repairs, text, done := Repairs(fields, job.plan), job.plan.afterMerge[0], job.plan.afterMerge[1];
    assert repairs == [] || repairs == [text] || repairs == [done] || repairs == [text, done];
  }

  lemma RecheckStory(w: World, job: Job, reply: Reply)
    requires At1(w, job, Recheck, reply)
    ensures StoryInv(StepRun(w, job, Recheck, reply))
  {
    hide OnPending, OnPr, OnTracking, OnBefore, OnRequestMerge, OnConfirm;
    hide OnSaveDecision, OnAfter, OnSaveFinal, OnSaveOutcome;
    hide SinceBegun, ReadyToMerge, IsReady;
    if reply.pr.Some? {
      GuardsAreSpelled(reply.pr.value, job.plan);
    }
  }

  lemma ConfirmStory(w: World, job: Job, failed: bool, reply: Reply)
    requires At1(w, job, Confirm(failed), reply) && Planned(job)
    ensures StoryInv(StepRun(w, job, Confirm(failed), reply))
  {
    hide At1, StoryInv, StepRun, Planned;
    if reply.pr.Some? && reply.pr.value.state == "MERGED" {
      ConfirmedStory(w, job, failed, reply);
    } else {
      UnconfirmedStory(w, job, failed, reply);
    }
  }

  lemma ConfirmedStory(w: World, job: Job, failed: bool, reply: Reply)
    requires At1(w, job, Confirm(failed), reply) && Planned(job) && reply.pr.Some? && reply.pr.value.state == "MERGED"
    ensures StoryInv(StepRun(w, job, Confirm(failed), reply))
  {
    hide OnPending, OnPr, OnTracking, OnBefore, OnRecheck, OnRequestMerge;
    hide OnSaveDecision, OnAfter, OnSaveFinal, OnSaveOutcome;
    hide SinceBegun, SameCandidate, ConfirmedMerged, IsReady, NamesTheCandidate, IsCommitId;
    hide IsStillOpen, ReviewUpdate, TextUpdate, TheMerge, MutationsDone;
    GuardsAreSpelled(reply.pr.value, job.plan);
  }

  lemma UnconfirmedStory(w: World, job: Job, failed: bool, reply: Reply)
    requires At1(w, job, Confirm(failed), reply) && !(reply.pr.Some? && reply.pr.value.state == "MERGED")
    ensures StoryInv(StepRun(w, job, Confirm(failed), reply))
  {
    hide OnPending, OnPr, OnTracking, OnBefore, OnRecheck, OnRequestMerge;
    hide OnSaveDecision, OnAfter, OnSaveFinal, OnSaveOutcome;
    hide SinceBegun, SameCandidate, ConfirmedMerged, IsReady, IsMerged, NamesTheCandidate, IsCommitId;
    hide ReviewUpdate, TextUpdate, DoneUpdate, TheMerge, Mutations, MutationsDone;
    if reply.pr.Some? {
      GuardsAreSpelled(reply.pr.value, job.plan);
    }
  }

  lemma AfterStory(w: World, job: Job, point: Point, reply: Reply)
    requires At1(w, job, point, reply) && point.AfterMerge?
    ensures StoryInv(StepRun(w, job, point, reply))
  {
    hide At1, StoryInv, StepRun;
    if job.repair {
      AfterRepairStory(w, job, point, reply);
    } else {
      AfterMergeStory(w, job, point, reply);
    }
  }

  lemma AfterRepairStory(w: World, job: Job, point: Point, reply: Reply)
    requires At1(w, job, point, reply) && point.AfterMerge? && job.repair
    ensures StoryInv(StepRun(w, job, point, reply))
  {
    hide OnPending, OnPr, OnTracking, OnBefore, OnRecheck, OnRequestMerge;
    hide OnConfirm, OnSaveDecision, OnSaveFinal, OnSaveOutcome;
    hide SinceBegun, IsReady, IsMerged, IsStillOpen, ReceiptFrom, ReviewUpdate, TheMerge, NormalStory;
    var log, i := SinceBegun(w.log), point.i;
    var after := log + [Issued(point.mutations[i])];
    assert after[|log|] == Issued(point.mutations[i]) && forall j | 0 <= j < |log| :: after[j] == log[j];
    assert EntryOf(job, point, reply) == [Issued(point.mutations[i])];
    MutationsTell(job, log, point.mutations, i);
  }

  lemma AfterMergeStory(w: World, job: Job, point: Point, reply: Reply)
    requires At1(w, job, point, reply) && point.AfterMerge? && !job.repair
    ensures StoryInv(StepRun(w, job, point, reply))
  {
    hide OnPending, OnPr, OnTracking, OnBefore, OnRecheck, OnRequestMerge;
    hide OnConfirm, OnSaveDecision, OnSaveFinal, OnSaveOutcome;
    hide SinceBegun, IsReady, IsMerged, IsStillOpen, ReceiptFrom, ReviewUpdate, TheMerge, RepairStory;
    var log, i := SinceBegun(w.log), point.i;
    var after := log + [Issued(point.mutations[i])];
    assert after[|log|] == Issued(point.mutations[i]) && forall j | 0 <= j < |log| :: after[j] == log[j];
    assert EntryOf(job, point, reply) == [Issued(point.mutations[i])];
    MutationsTell(job, log, point.mutations, i);
  }

  /** One more update in its place keeps the story one of its kind. */
  lemma MutationsTell(job: Job, log: seq<Entry>, mutations: seq<Command>, i: nat)
    requires Story(job, log) && Mutations(job, mutations) && i < |mutations|
    requires |log| == (if job.repair then 2 else 8) + i && MutationsDone(job, log, mutations, i)
    requires job.repair || log[7].WroteReceipt?
    ensures Story(job, log + [Issued(mutations[i])])
  {
    hide IsReady, IsMerged, IsStillOpen, ReceiptFrom;
    var after := log + [Issued(mutations[i])];
    assert after[|log|] == Issued(mutations[i]) && forall j | 0 <= j < |log| :: after[j] == log[j];
    assert i > 0 ==> log[(if job.repair then 2 else 8) + 0] == Issued(mutations[0]);
  }

  lemma SavedStory(w: World, job: Job, point: Point, reply: Reply)
    requires At1(w, job, point, reply) && point.SaveOutcome?
    ensures StoryInv(StepRun(w, job, point, reply))
  {
    hide OnPending, OnPr, OnTracking, OnBefore, OnRecheck, OnRequestMerge;
    hide OnConfirm, OnSaveDecision, OnAfter, OnSaveFinal;
    hide SinceBegun, Story, ReadMerged;
  }

  lemma BeforeStory(w: World, job: Job, i: nat, reply: Reply)
    requires At1(w, job, BeforeMerge(i), reply) && Planned(job)
    ensures StoryInv(StepRun(w, job, BeforeMerge(i), reply))
  {
    hide OnPending, OnPr, OnTracking, OnRecheck, OnRequestMerge, OnConfirm, OnSaveDecision, OnAfter, OnSaveFinal;
    hide SinceBegun, IsReady, IsMerged, NamesTheCandidate;
  }

  lemma RequestStory(w: World, job: Job, point: Point, reply: Reply)
    requires At1(w, job, point, reply) && Planned(job) && (point.SaveRequested? || point.RequestMerge?)
    ensures StoryInv(StepRun(w, job, point, reply))
  {
    hide OnPending, OnPr, OnTracking, OnBefore, OnRecheck, OnConfirm, OnSaveDecision, OnAfter, OnSaveFinal;
    hide SinceBegun, IsReady, IsMerged, NamesTheCandidate;
  }

  lemma DecisionStory(w: World, job: Job, failed: bool, reply: Reply)
    requires At1(w, job, SaveDecision(failed), reply)
    ensures StoryInv(StepRun(w, job, SaveDecision(failed), reply))
  {
    hide OnPending, OnPr, OnTracking, OnBefore, OnRecheck, OnRequestMerge, OnConfirm, OnAfter, OnSaveFinal;
    hide SinceBegun, IsReady, IsMerged, NamesTheCandidate;
  }

  lemma ReceiptStory(w: World, job: Job, point: Point, reply: Reply)
    requires At1(w, job, point, reply) && (point.SaveConfirmed? || point.SaveReceipt?)
    ensures StoryInv(StepRun(w, job, point, reply))
  {
    hide OnPending, OnPr, OnTracking, OnBefore, OnRecheck, OnRequestMerge;
    hide OnConfirm, OnSaveDecision, OnAfter, OnSaveFinal, OnSaveOutcome;
    hide SinceBegun, IsReady, IsMerged, NamesTheCandidate;
  }

  lemma FinalStory(w: World, job: Job, point: Point, reply: Reply)
    requires At1(w, job, point, reply) && point.SaveFinal?
    ensures StoryInv(StepRun(w, job, point, reply))
  {
    hide OnPending, OnPr, OnTracking, OnBefore, OnRecheck, OnRequestMerge;
    hide OnConfirm, OnSaveDecision, OnAfter, OnSaveOutcome;
    hide SinceBegun, IsReady, IsMerged, NamesTheCandidate;
  }

  lemma {:induction false} HistoryStory(w: World, hs: seq<Happening>)
    requires Fresh(w)
    ensures StoryInv(History(w, hs))
  {
    hide Next, StoryInv, Inv;
    if hs == [] {
      assert StoryInv(w) by { FreshStory(w); }
    } else {
      var before := History(w, hs[..|hs| - 1]);
      HistoryStory(w, hs[..|hs| - 1]);
      HistoryInv(w, hs[..|hs| - 1]);
      NextStory(before, hs[|hs| - 1]);
    }
  }

  lemma FreshStory(w: World)
    requires Fresh(w)
    ensures StoryInv(w)
  {
  }

  lemma NextStory(w: World, h: Happening)
    requires Inv(w) && StoryInv(w)
    ensures StoryInv(Next(w, h))
  {
    hide StepRun, BeginRun, StoryAt, Tells, Planned;
    match h
    case Begin(job) =>
      if !w.run.Running? {
        StoryBegins(w, job);
      }
    case Step(reply) =>
      if w.run.Running? {
        StorySteps(w, w.run.job, w.run.point, reply);
      }
    case _ =>
  }

  /** Whatever happens, the run under way or just ended has a story of its kind, with the outcome of the story. */
  lemma EveryRunTellsItsStory(w: World, hs: seq<Happening>)
    requires Fresh(w)
    ensures var after := History(w, hs);
      && (after.run.Running? ==> Story(after.run.job, SinceBegun(after.log)))
      && (after.run.Ended? ==> Tells(after.run.job, SinceBegun(after.log), after.run.outcome))
  {
    hide History, SinceBegun, Story;
    HistoryStory(w, hs);
  }
}
