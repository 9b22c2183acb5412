/**
 Reading only changes nothing, a pending merge is never requested again, a repair edits exactly what is needed
 and repairing twice edits nothing, and whatever a crash left behind, a repair completes exactly when no other
 receipt is stored.
 */
module ReleaseRecovery {
  import opened Wrappers
  import opened Release
  import opened ReleaseSafety
  import opened ReleaseTracking

  /** A run without `execute` writes no file, edits nothing and logs nothing but the reads it made. */
  lemma ReadOnlyRunChangesNothing(w: World, hs: seq<Happening>, reply: Reply)
    requires Fresh(w) && History(w, hs).run.Running? && !History(w, hs).run.job.execute
    ensures var before, after := History(w, hs), Next(History(w, hs), Step(reply));
            && after.operation == before.operation && after.receipt == before.receipt && after.fields == before.fields
            && (after.log == before.log || (reply.pr.Some? && after.log == before.log + [SawPr(reply.pr.value)]))
  {
    hide History;
    HistoryInv(w, hs);
    ReadOnlyStep(History(w, hs), reply);
  }

  lemma ReadOnlyStep(w: World, reply: Reply)
    requires Inv(w) && w.run.Running? && !w.run.job.execute
    ensures var after := Next(w, Step(reply));
            && after.operation == w.operation && after.receipt == w.receipt && after.fields == w.fields
            && (after.log == w.log || (reply.pr.Some? && after.log == w.log + [SawPr(reply.pr.value)]))
  {
    hide Inv;
    hide Planned;
    hide Holds;
    hide Genuine;
    hide ConfirmedMerged;
    hide ReadyToMerge;
    hide SameCandidate;
    hide TrackingReady;
    hide OnBefore, OnRecheck, OnRequestMerge, OnConfirm, OnSaveDecision, OnAfter, OnSaveFinal;
    hide WriteReceipt, WriteOperation, NextMutation, ReceiptOf, OperationOf, Repairs;
    PointHolds(w);
  }

  // ---------------------------------------------------------------- repairing what is already right

  /** A repair of a tracked item never comes near an edit. */
  ghost predicate Quiet(w: World, job: Job) {
    Tracked(w.fields, job.plan) && Commands(w.log) == [] && QuietAt(w.run, job)
  }

  ghost predicate QuietAt(run: RunState, job: Job) {
    match run
    case Idle => true
    case Ended(_, _) => true
    case Running(j, point) =>
      && j == job
      && match point
         case ReadPr => true
         case ReadTracking(_) => true
         case SaveConfirmed(_) => true
         case SaveReceipt(_, mutations) => mutations == []
         case SaveFinal(_) => true
         case SaveOutcome(_) => true
         case _ => false
  }

  lemma QuietStep(w: World, job: Job, h: Happening)
    requires job.repair && Quiet(w, job) && (h.Step? || h.Crash?)
    ensures Quiet(Next(w, h), job)
  {
    hide Commands, Tracked, StepRun;
    if h.Step? && w.run.Running? {
      QuietPoint(w, job, w.run.point, h.reply);
      StepLogs(w, job, w.run.point, h.reply);
      QuietEntry(w.run, job, h.reply);
      CommandsAfter(w.log, EntryOf(job, w.run.point, h.reply));
    }
  }

  lemma QuietEntry(run: RunState, job: Job, reply: Reply)
    requires run.Running? && QuietAt(run, job)
    ensures run.job == job
    ensures var entries := EntryOf(job, run.point, reply);
      |entries| <= 1 && forall x | x in entries :: !x.Began? && !x.Issued?
  {
  }

  lemma QuietPoint(w: World, job: Job, point: Point, reply: Reply)
    requires job.repair && Tracked(w.fields, job.plan) && w.run == Running(job, point) && QuietAt(w.run, job)
    ensures StepRun(w, job, point, reply).fields == w.fields && QuietAt(StepRun(w, job, point, reply).run, job)
  {
    hide ConfirmedMerged, ReadyToMerge, SameCandidate, Tracked, Repairs, Issue, OperationOf, ReceiptOf;
    hide OnPending, OnBefore, OnRecheck, OnRequestMerge, OnConfirm, OnSaveDecision, OnAfter;
    TrackedNeedsNothing(w.fields, job.plan);
  }

  lemma TrackedNeedsNothing(fields: Fields, plan: Plan)
    requires Tracked(fields, plan)
    ensures |plan.afterMerge| == 2 ==> Repairs(fields, plan) == []
  {
  }

  lemma QuietBegin(w: World, job: Job)
    requires job.repair && !w.run.Running? && Tracked(w.fields, job.plan)
    ensures Quiet(Next(w, Begin(job)), job)
  {
    hide Commands;
    hide ValidJob;
    BeganClears(w.log, job);
  }

  lemma {:induction false} QuietRun(w: World, job: Job, hs: seq<Happening>)
    requires job.repair && Quiet(w, job)
    requires forall i | 0 <= i < |hs| :: hs[i].Step? || hs[i].Crash?
    ensures Quiet(History(w, hs), job)
  {
    hide Next;
    hide Quiet;
    if hs != [] {
      QuietRun(w, job, hs[..|hs| - 1]);
      QuietStep(History(w, hs[..|hs| - 1]), job, hs[|hs| - 1]);
    }
  }

  /** A repair begun on a tracked item, left alone, issues no command however it goes and wherever it stops. */
  lemma SecondRepairEditsNothing(w: World, job: Job, hs: seq<Happening>)
    requires job.repair && !w.run.Running? && Tracked(w.fields, job.plan)
    requires forall i | 0 <= i < |hs| :: hs[i].Step? || hs[i].Crash?
    ensures Commands(History(Next(w, Begin(job)), hs).log) == []
  {
    hide Next;
    hide Tracked;
    hide History;
    QuietBegin(w, job);
    QuietRun(Next(w, Begin(job)), job, hs);
  }

  // ---------------------------------------------------------------- observing what is pending

  /** A merge was asked for and nothing says that it failed, or it is known to be done. */
  ghost predicate IsUnderway(w: World) {
    || w.receipt.Some?
    || (w.operation.Some? && (w.operation.value.decision.MergeRequested? || w.operation.value.decision.MergePending?))
  }

  /** A normal run that found something pending only looks. */
  ghost predicate Watching(w: World) {
    && Commands(w.log) == []
    && (w.run.Running? ==> w.run.point.ReadPending? || w.run.point.SaveOutcome?)
  }

  lemma WatchingBegins(w: World, job: Job)
    requires !w.run.Running? && !job.repair && IsUnderway(w)
    ensures Watching(Next(w, Begin(job)))
  {
    hide Commands, ValidJob, SameOperation;
    BeganClears(w.log, job);
  }

  lemma WatchingKeeps(w: World, h: Happening)
    requires Watching(w) && !h.Begin?
    ensures Watching(Next(w, h))
  {
    hide Commands, SameCandidate;
    if h.Step? && w.run.Running? {
      CommandsAfter(w.log, EntryOf(w.run.job, w.run.point, h.reply));
    }
  }

  /**
   A normal run begun while a receipt is stored, or while the operation record says that a merge is requested or
   pending, issues no command at all, whatever it is answered, wherever it stops and whatever others edit.
   */
  lemma {:induction false} PendingIsNeverRequestedAgain(w: World, job: Job, hs: seq<Happening>)
    requires !w.run.Running? && !job.repair && IsUnderway(w)
    requires forall i | 0 <= i < |hs| :: !hs[i].Begin?
    ensures Commands(History(Next(w, Begin(job)), hs).log) == [] && Watching(History(Next(w, Begin(job)), hs))
  {
    hide Next, Commands, IsUnderway;
    if hs == [] {
      WatchingBegins(w, job);
    } else {
      PendingIsNeverRequestedAgain(w, job, hs[..|hs| - 1]);
      WatchingKeeps(History(Next(w, Begin(job)), hs[..|hs| - 1]), hs[|hs| - 1]);
    }
  }

  // ---------------------------------------------------------------- what a repair edits

  /** The updates that these fields ask for. */
  function Needed(fields: Fields, plan: Plan): seq<Command> {
    if |plan.afterMerge| == 2 then Repairs(fields, plan) else []
  }

  ghost predicate EditedAsNeeded(w: World, job: Job, outcome: Outcome, needed: seq<Command>) {
    outcome.decision.TrackingRepaired? ==> |job.plan.afterMerge| == 2 && Commands(w.log) == needed
  }

  /** The commands of a repair so far, against those that the fields it began on ask for. */
  ghost predicate Repairing(w: World, job: Job, needed: seq<Command>) {
    match w.run
    case Idle => true
    case Ended(_, outcome) => EditedAsNeeded(w, job, outcome, needed)
    case Running(j, point) =>
      && j == job
      && match point
         case SaveOutcome(outcome) => EditedAsNeeded(w, job, outcome, needed)
         case ReadPr => Commands(w.log) == []
         case ReadTracking(_) => Commands(w.log) == []
         case SaveConfirmed(_) => true
         case SaveReceipt(_, mutations) => |job.plan.afterMerge| == 2 && mutations == needed && Commands(w.log) == []
         case AfterMerge(_, mutations, i) =>
           |job.plan.afterMerge| == 2 && mutations == needed && i < |needed| && Commands(w.log) == needed[..i]
         case SaveFinal(_) => |job.plan.afterMerge| == 2 && Commands(w.log) == needed
         case _ => false
  }

  /** Until the edits begin, the fields are those the repair began on. */
  ghost predicate StillUnedited(w: World, fields: Fields) {
    w.run.Running? && (w.run.point.ReadPr? || w.run.point.ReadTracking?) ==> w.fields == fields
  }

  lemma RepairingBegins(w: World, job: Job, needed: seq<Command>)
    requires !w.run.Running? && job.repair
    ensures Repairing(Next(w, Begin(job)), job, needed) && StillUnedited(Next(w, Begin(job)), w.fields)
  {
    hide Commands, ValidJob;
    BeganClears(w.log, job);
  }

  lemma RepairingKeeps(w: World, job: Job, fields: Fields, reply: Reply)
    requires job.repair && Repairing(w, job, Needed(fields, job.plan)) && StillUnedited(w, fields)
    ensures Repairing(Next(w, Step(reply)), job, Needed(fields, job.plan))
    ensures StillUnedited(Next(w, Step(reply)), fields)
  {
    hide Commands, Needed, StepRun;
    if w.run.Running? {
      var needed := Needed(fields, job.plan);
      CommandsAfter(w.log, EntryOf(job, w.run.point, reply));
      StepLogs(w, job, w.run.point, reply);
      match w.run.point
      case ReadPr => RepairingReads(w, job, needed, fields, reply);
      case ReadTracking(pr) => RepairingTracks(w, job, pr, fields, reply);
      case AfterMerge(_, _, _) => RepairingEdits(w, job, needed, fields, reply);
      case _ => RepairingSaves(w, job, needed, fields, reply);
    }
  }

  lemma RepairingReads(w: World, job: Job, needed: seq<Command>, fields: Fields, reply: Reply)
    requires job.repair && Repairing(w, job, needed) && StillUnedited(w, fields) && w.run == Running(job, ReadPr)
    ensures Repairing(Next(w, Step(reply)), job, needed) && StillUnedited(Next(w, Step(reply)), fields)
  {
    hide Commands, ConfirmedMerged, ReadyToMerge;
    CommandsAfter(w.log, EntryOf(job, ReadPr, reply));
  }

  lemma RepairingTracks(w: World, job: Job, pr: PullRequest, fields: Fields, reply: Reply)
    requires job.repair && Repairing(w, job, Needed(fields, job.plan)) && StillUnedited(w, fields)
    requires w.run == Running(job, ReadTracking(pr))
    ensures Repairing(Next(w, Step(reply)), job, Needed(fields, job.plan))
    ensures StillUnedited(Next(w, Step(reply)), fields)
  {
    hide Commands, Repairs, TrackingReady, ReceiptOf;
  }

  lemma RepairingEdits(w: World, job: Job, needed: seq<Command>, fields: Fields, reply: Reply)
    requires job.repair && Repairing(w, job, needed) && w.run.Running? && w.run.point.AfterMerge?
    ensures Repairing(Next(w, Step(reply)), job, needed) && StillUnedited(Next(w, Step(reply)), fields)
  {
    hide Commands, Effect;
    var i := w.run.point.i;
    CommandsAfter(w.log, EntryOf(job, w.run.point, reply));
    assert needed[..i] + [needed[i]] == needed[..i + 1] && needed[..|needed|] == needed;
  }

  lemma RepairingSaves(w: World, job: Job, needed: seq<Command>, fields: Fields, reply: Reply)
    requires job.repair && Repairing(w, job, needed) && w.run.Running?
    requires !w.run.point.ReadPr? && !w.run.point.ReadTracking? && !w.run.point.AfterMerge?
    ensures Repairing(Next(w, Step(reply)), job, needed) && StillUnedited(Next(w, Step(reply)), fields)
  {
    hide Commands, OperationOf;
    CommandsAfter(w.log, EntryOf(job, w.run.point, reply));
    assert needed[..0] == [];
  }

  /**
   A repair that is left alone and reports success has issued exactly the updates that the fields it began on
   ask for, in order: no needed one is missing and no other one was made.
   */
  lemma RepairEditsWhatIsNeeded(w: World, job: Job, hs: seq<Happening>)
    requires !w.run.Running? && job.repair
    requires forall i | 0 <= i < |hs| :: hs[i].Step? || hs[i].Crash?
    requires var after := History(Next(w, Begin(job)), hs);
      after.run.Ended? && after.run.outcome.decision.TrackingRepaired?
    ensures |job.plan.afterMerge| == 2
    ensures Commands(History(Next(w, Begin(job)), hs).log) == Repairs(w.fields, job.plan)
  {
    hide Next, Commands, Repairs, History;
    RepairingRuns(w, job, hs);
  }

  lemma {:induction false} RepairingRuns(w: World, job: Job, hs: seq<Happening>)
    requires !w.run.Running? && job.repair
    requires forall i | 0 <= i < |hs| :: hs[i].Step? || hs[i].Crash?
    ensures var after := History(Next(w, Begin(job)), hs);
      Repairing(after, job, Needed(w.fields, job.plan)) && StillUnedited(after, w.fields)
  {
    hide Next, Commands, Needed, Repairing, StillUnedited;
    if hs == [] {
      RepairingBegins(w, job, Needed(w.fields, job.plan));
    } else {
      var before := History(Next(w, Begin(job)), hs[..|hs| - 1]);
      RepairingRuns(w, job, hs[..|hs| - 1]);
      match hs[|hs| - 1]
      case Step(reply) => RepairingKeeps(before, job, w.fields, reply);
      case Crash => RepairingCrashes(before, job, Needed(w.fields, job.plan), w.fields);
      case _ =>
    }
  }

  lemma RepairingCrashes(w: World, job: Job, needed: seq<Command>, fields: Fields)
    ensures Repairing(Next(w, Crash), job, needed) && StillUnedited(Next(w, Crash), fields)
  {
  }

  // ---------------------------------------------------------------- recovery

  /** n steps that all go well. */
  function Steps(w: World, reply: Reply, n: nat): World
    decreases n
  {
    if n == 0 then w else Steps(Next(w, Step(reply)), reply, n - 1)
  }

  lemma {:induction false} EndedStays(w: World, reply: Reply, n: nat)
    requires w.run.Ended?
    ensures Steps(w, reply, n) == w
    decreases n
  {
    if n > 0 {
      EndedStays(w, reply, n - 1);
    }
  }

  /** Applying the pending mutations one by one, all accepted. */
  lemma {:induction false} MutationsRun(w: World, job: Job, receipt: Receipt, mutations: seq<Command>, i: nat,
                                        reply: Reply)
    requires reply.ok && i <= |mutations|
    requires w.run == Running(job, if i < |mutations| then AfterMerge(receipt, mutations, i) else SaveFinal(receipt))
    ensures var after := Steps(w, reply, |mutations| - i);
            && after.run == Running(job, SaveFinal(receipt))
            && after.fields == Apply(w.fields, mutations[i..])
            && after.receipt == w.receipt
    decreases |mutations| - i
  {
    if i < |mutations| {
      var next := Next(w, Step(reply));
      assert mutations[i..][0] == mutations[i] && mutations[i..][1..] == mutations[i + 1..];
      MutationsRun(next, job, receipt, mutations, i + 1, reply);
    } else {
      assert mutations[i..] == [];
    }
  }

  lemma {:induction false} StepsAdd(w: World, reply: Reply, m: nat, n: nat)
    ensures Steps(w, reply, m + n) == Steps(Steps(w, reply, m), reply, n)
    decreases m
  {
    hide Next;
    if m > 0 {
      StepsAdd(Next(w, Step(reply)), reply, m - 1, n);
    }
  }

  /** Three steps take a repair through discovery and the receipt, or stop it at a different receipt. */
  lemma RepairDiscovers(w: World, job: Job, pr: PullRequest, reply: Reply)
    requires CanRepair(w, job, pr, reply) && Planned(job)
    ensures var receipt, after := ReceiptOf(job.plan, pr), Steps(Next(w, Begin(job)), reply, 3);
            var mutations := Repairs(w.fields, job.plan);
            if w.receipt in {None, Some(receipt)} then
              && after.run ==
                 Running(job, if mutations != [] then AfterMerge(receipt, mutations, 0) else SaveFinal(receipt))
              && after.receipt == Some(receipt) && after.fields == w.fields
            else after.run == Ended(job, Outcome(Blocked, None)) && after.receipt == w.receipt
  {
    hide BuildPlan;
    hide ConfirmedMerged;
    hide ReadyToMerge;
  }

  /** A valid repair job, a remote that reports the merge and answers well, and an item whose status is known. */
  ghost predicate CanRepair(w: World, job: Job, pr: PullRequest, reply: Reply) {
    && !w.run.Running? && ValidJob(job) && job.repair && job.execute
    && ConfirmedMerged(pr, job.plan.context, job.plan.implementationSha)
    && pr.mergeCommit.Some? && pr.mergedAt.Some?
    && reply.ok && reply.pr == Some(pr)
    && StatusKey(job.plan.context) in w.fields
  }

  /**
   Whatever an interrupted run left behind, a repair that is answered well completes within seven steps:
   the receipt is stored, the operation recorded and the item tracked. It does so exactly when the files
   hold no receipt or this one; otherwise it stops blocked and the stored receipt stays.
   */
  lemma RepairCompletes(w: World, job: Job, pr: PullRequest, reply: Reply)
    requires CanRepair(w, job, pr, reply)
    ensures var receipt, after := ReceiptOf(job.plan, pr), Steps(Next(w, Begin(job)), reply, 7);
            if w.receipt in {None, Some(receipt)} then
              && after.run == Ended(job, Outcome(TrackingRepaired, Some(receipt)))
              && after.receipt == Some(receipt)
              && after.operation == Some(OperationOf(job.plan, RecordedRepaired))
              && Tracked(after.fields, job.plan)
            else after.run == Ended(job, Outcome(Blocked, None)) && after.receipt == w.receipt
  {
    hide Next, ValidJob, ConfirmedMerged, Steps, Tracked, Repairs, ReceiptOf;
    ValidJobIsPlanned(job);
    var receipt, w0 := ReceiptOf(job.plan, pr), Next(w, Begin(job));
    RepairDiscovers(w, job, pr, reply);
    StepsAdd(w0, reply, 3, 4);
    var w3 := Steps(w0, reply, 3);
    if w.receipt in {None, Some(receipt)} {
      MayExecute(w, job, pr, reply);
      RepairFinishes(w3, job, receipt, reply);
    } else {
      EndedStays(w3, reply, 4);
    }
  }

  lemma MayExecute(w: World, job: Job, pr: PullRequest, reply: Reply)
    requires CanRepair(w, job, pr, reply)
    ensures job.repair && job.execute && job.enabled
  {
    hide ConfirmedMerged, BuildPlan, ValidContext;
  }

  /** With the receipt stored, at most two repairs and the two last writes are left. */
  lemma RepairFinishes(w: World, job: Job, receipt: Receipt, reply: Reply)
    requires Planned(job) && job.repair && job.execute && job.enabled && reply.ok && w.receipt == Some(receipt)
    requires var mutations := Repairs(w.fields, job.plan);
      w.run == Running(job, if mutations != [] then AfterMerge(receipt, mutations, 0) else SaveFinal(receipt))
    ensures var after := Steps(w, reply, 4);
      && after.run == Ended(job, Outcome(TrackingRepaired, Some(receipt)))
      && after.receipt == Some(receipt)
      && after.operation == Some(OperationOf(job.plan, RecordedRepaired))
      && Tracked(after.fields, job.plan)
  {
    hide Next, Steps, Tracked, Repairs, Apply, OperationOf, ValidContext;
    var mutations := Repairs(w.fields, job.plan);
    RepairsAreFew(w.fields, job.plan);
    MutationsRun(w, job, receipt, mutations, 0, reply);
    StepsAdd(w, reply, |mutations|, 4 - |mutations|);
    assert mutations[0..] == mutations;
    RepairsComplete(w.fields, job);
    FinalSteps(Steps(w, reply, |mutations|), job, receipt, reply, 4 - |mutations|);
  }

  lemma RepairsAreFew(fields: Fields, plan: Plan)
    requires |plan.afterMerge| == 2
    ensures |Repairs(fields, plan)| <= 2
  {
  }

  lemma FinalSteps(w: World, job: Job, receipt: Receipt, reply: Reply, n: nat)
    requires w.run == Running(job, SaveFinal(receipt)) && reply.ok && n >= 2
    requires job.repair && job.execute && job.enabled
    ensures Steps(w, reply, n) == WriteOperation(w, OperationOf(job.plan, RecordedRepaired))
                                    .(run := Ended(job, Outcome(TrackingRepaired, Some(receipt))))
  {
    var w1 := Next(w, Step(reply));
    var w2 := Next(w1, Step(reply));
    assert Steps(w, reply, n) == Steps(w1, reply, n - 1) == Steps(w2, reply, n - 2);
    EndedStays(w2, reply, n - 2);
  }
}
