/**
 What a release leaves behind: the commands of one run are the plan's own, in order, and a run that reports
 success has left the project tracked.
 */
module ReleaseTracking {
  import opened Wrappers
  import opened Release
  import opened ReleaseSafety

  // ---------------------------------------------------------------- tracking

  function Apply(fields: Fields, commands: seq<Command>): Fields
    decreases |commands|
  {
    if commands == [] then fields else Apply(Effect(fields, commands[0]), commands[1..])
  }

  ghost predicate EvidenceInPlace(fields: Fields, plan: Plan) {
    EvidenceKey(plan.context) in fields && fields[EvidenceKey(plan.context)] == plan.evidenceText
  }

  ghost predicate Succeeded(outcome: Outcome) {
    outcome.decision.Merged? || outcome.decision.TrackingRepaired?
  }

  ghost predicate TrackedAt(fields: Fields, job: Job, point: Point) {
    match point
    case SaveReceipt(_, mutations) => Tracked(Apply(fields, mutations), job.plan)
    case AfterMerge(_, mutations, i) => i < |mutations| && Tracked(Apply(fields, mutations[i..]), job.plan)
    case SaveFinal(_) => Tracked(fields, job.plan)
    case SaveOutcome(outcome) => Succeeded(outcome) ==> Tracked(fields, job.plan)
    case ReadPending => true
    case ReadPr => true
    case ReadTracking(_) => true
    case SaveConfirmed(_) => true
    case _ => EvidenceInPlace(fields, job.plan)
  }

  /** As long as nobody else edits, the project is on its way to what a successful outcome claims. */
  ghost predicate TrackInv(w: World) {
    w.undisturbed ==>
      match w.run
      case Idle => true
      case Running(job, point) => TrackedAt(w.fields, job, point)
      case Ended(job, outcome) => Succeeded(outcome) ==> Tracked(w.fields, job.plan)
  }

  lemma DoneCompletes(fields: Fields, job: Job)
    requires Planned(job) && !job.repair && EvidenceInPlace(fields, job.plan)
    ensures Tracked(Apply(fields, job.plan.afterMerge), job.plan)
  {
  }

  lemma RepairsComplete(fields: Fields, job: Job)
    requires Planned(job) && job.repair
    ensures Tracked(Apply(fields, Repairs(fields, job.plan)), job.plan)
  {
    var repairs, evidence, done := Repairs(fields, job.plan), job.plan.afterMerge[0], job.plan.afterMerge[1];
    if repairs == [evidence, done] {
      assert repairs[1..] == [done] && [done][1..] == [];
      assert Apply(fields, repairs) == Apply(Effect(fields, evidence), [done]);
      assert Apply(Effect(fields, evidence), [done]) == Apply(Effect(Effect(fields, evidence), done), []);
    } else if repairs == [evidence] || repairs == [done] {
      assert repairs[1..] == [];
      assert Apply(fields, repairs) == Effect(fields, repairs[0]);
    } else {
      assert repairs == [];
    }
  }

  lemma StepTracks(w: World, job: Job, point: Point, reply: Reply)
    requires Inv(w) && TrackInv(w) && w.run == Running(job, point)
    ensures TrackInv(StepRun(w, job, point, reply))
  {
    hide Inv, TrackInv, StepRun;
    match point
    case BeforeMerge(i) => BeforeTracks(w, job, i, reply);
    case ReadTracking(pr) => TrackingTracks(w, job, pr, reply);
    case RequestMerge => MergeTracks(w, job, reply);
    case Confirm(failed) => ConfirmTracks(w, job, failed, reply);
    case AfterMerge(receipt, mutations, i) => AfterTracks(w, job, receipt, mutations, i, reply);
    case _ => OtherTracks(w, job, point, reply);
  }

  lemma ConfirmTracks(w: World, job: Job, failed: bool, reply: Reply)
    requires Inv(w) && TrackInv(w) && w.run == Running(job, Confirm(failed))
    ensures TrackInv(StepRun(w, job, Confirm(failed), reply))
  {
    hide Genuine, Outstanding, Separated, SameCandidate, ReadyToMerge, ConfirmedMerged, IsSha, Planned, Tracked;
    if EvidenceInPlace(w.fields, job.plan) && Planned(job) && !job.repair {
      DoneCompletes(w.fields, job);
    }
  }

  lemma OtherTracks(w: World, job: Job, point: Point, reply: Reply)
    requires Inv(w) && TrackInv(w) && w.run == Running(job, point)
    requires !point.BeforeMerge? && !point.ReadTracking? && !point.RequestMerge?
    requires !point.Confirm? && !point.AfterMerge?
    ensures TrackInv(StepRun(w, job, point, reply))
  {
    hide Inv, SameCandidate, ReadyToMerge, ConfirmedMerged, Tracked, ReceiptOf, Apply, EvidenceInPlace, OperationOf;
    if point.SaveReceipt? {
      assert point.mutations[0..] == point.mutations;
      NothingApplied(w.fields);
    }
  }

  lemma NothingApplied(fields: Fields)
    ensures Apply(fields, []) == fields
  {
  }

  lemma BeforeTracks(w: World, job: Job, i: nat, reply: Reply)
    requires Inv(w) && TrackInv(w) && w.run == Running(job, BeforeMerge(i))
    ensures TrackInv(StepRun(w, job, BeforeMerge(i), reply))
  {
    hide Genuine;
    hide Outstanding;
    hide Separated;
  }

  lemma AfterTracks(w: World, job: Job, receipt: Receipt, mutations: seq<Command>, i: nat, reply: Reply)
    requires Inv(w) && TrackInv(w) && w.run == Running(job, AfterMerge(receipt, mutations, i))
    ensures TrackInv(StepRun(w, job, AfterMerge(receipt, mutations, i), reply))
  {
    hide Genuine;
    hide Outstanding;
    hide Separated;
    hide Planned;
    hide Tracked;
    assert mutations[i..][0] == mutations[i] && mutations[i..][1..] == mutations[i + 1..];
    assert Apply(w.fields, mutations[i..]) == Apply(Effect(w.fields, mutations[i]), mutations[i + 1..]);
    assert i + 1 == |mutations| ==> mutations[i + 1..] == [];
  }

  lemma MergeTracks(w: World, job: Job, reply: Reply)
    requires Inv(w) && TrackInv(w) && w.run == Running(job, RequestMerge)
    ensures TrackInv(StepRun(w, job, RequestMerge, reply))
  {
    hide Genuine;
    hide Outstanding;
    hide Separated;
  }

  lemma TrackingTracks(w: World, job: Job, pr: PullRequest, reply: Reply)
    requires Inv(w) && TrackInv(w) && w.run == Running(job, ReadTracking(pr))
    ensures TrackInv(StepRun(w, job, ReadTracking(pr), reply))
  {
    hide Genuine;
    hide Outstanding;
    hide Separated;
    hide Tracked;
    hide IsSha;
    hide SameCandidate;
    if job.repair {
      RepairsComplete(w.fields, job);
    }
  }

  lemma NextTracks(w: World, h: Happening)
    requires Inv(w) && TrackInv(w)
    ensures TrackInv(Next(w, h))
  {
    hide StepRun;
    hide Inv;
    hide ValidJob;
    hide Tracked;
    if h.Step? && w.run.Running? {
      assert Next(w, h) == StepRun(w, w.run.job, w.run.point, h.reply);
      StepTracks(w, w.run.job, w.run.point, h.reply);
    }
  }

  lemma {:induction false} HistoryTracks(w: World, hs: seq<Happening>)
    requires Fresh(w)
    ensures TrackInv(History(w, hs))
  {
    hide Next;
    hide TrackInv;
    if hs == [] {
      FreshTracks(w);
    } else {
      HistoryTracks(w, hs[..|hs| - 1]);
      HistoryInv(w, hs[..|hs| - 1]);
      NextTracks(History(w, hs[..|hs| - 1]), hs[|hs| - 1]);
    }
  }

  lemma FreshTracks(w: World)
    requires Fresh(w)
    ensures TrackInv(w)
  {
  }

  /** A run that reports success, undisturbed by others, leaves the item Done with the plan's evidence text. */
  lemma SuccessIsTracked(w: World, hs: seq<Happening>)
    requires Fresh(w) && History(w, hs).run.Ended? && History(w, hs).undisturbed
    requires Succeeded(History(w, hs).run.outcome)
    ensures var fields, plan := History(w, hs).fields, History(w, hs).run.job.plan;
      var status, text := (plan.context.projectItemId, plan.context.statusFieldId),
        (plan.context.projectItemId, plan.context.dependencyFieldId);
      && status in fields && fields[status] == plan.context.doneOptionId
      && text in fields && fields[text] == plan.evidenceText
  {
    hide History;
    HistoryTracks(w, hs);
  }

  // ---------------------------------------------------------------- the commands of one run

  /** The commands issued since the last run began. */
  function Commands(log: seq<Entry>): seq<Command> {
    if log == [] then []
    else
      match log[|log| - 1]
      case Began(_) => []
      case Issued(command) => Commands(log[..|log| - 1]) + [command]
      case _ => Commands(log[..|log| - 1])
  }

  ghost function Whole(plan: Plan): seq<Command> {
    plan.beforeMerge + plan.requestMerge + plan.afterMerge
  }

  /** A repair issues its plan's two updates in order, each only if it is needed. */
  ghost predicate SomeRepairs(plan: Plan, commands: seq<Command>) {
    |plan.afterMerge| == 2
    && (|| commands == [] || commands == plan.afterMerge
        || commands == [plan.afterMerge[0]] || commands == [plan.afterMerge[1]])
  }

  ghost predicate Authorized(job: Job, commands: seq<Command>) {
    if !job.execute then commands == []
    else if job.repair then SomeRepairs(job.plan, commands)
    else commands <= Whole(job.plan)
  }

  ghost predicate CommandsAt(job: Job, point: Point, commands: seq<Command>) {
    var p := job.plan;
    match point
    case BeforeMerge(i) => i < |p.beforeMerge| && commands == p.beforeMerge[..i]
    case Recheck => commands == p.beforeMerge
    case SaveRequested => commands == p.beforeMerge
    case RequestMerge => commands == p.beforeMerge
    case Confirm(_) => commands == p.beforeMerge + p.requestMerge
    case SaveDecision(_) => commands == p.beforeMerge + p.requestMerge
    case SaveReceipt(_, mutations) => Reached(job, mutations, 0, commands)
    case AfterMerge(_, mutations, i) => i < |mutations| && Reached(job, mutations, i, commands)
    case SaveFinal(_) => Complete(job, commands)
    case SaveOutcome(outcome) => Accounted(job, outcome, commands)
    case _ => commands == []
  }

  ghost predicate Reached(job: Job, mutations: seq<Command>, i: nat, commands: seq<Command>)
    requires i <= |mutations|
  {
    if job.repair then SomeRepairs(job.plan, mutations) && commands == mutations[..i]
    else mutations == job.plan.afterMerge && commands == job.plan.beforeMerge + job.plan.requestMerge + mutations[..i]
  }

  ghost predicate Complete(job: Job, commands: seq<Command>) {
    if job.repair then SomeRepairs(job.plan, commands) else commands == Whole(job.plan)
  }

  /** Blocked or not, a run issues nothing outside its plan; a merged one has issued the whole plan. */
  ghost predicate Accounted(job: Job, outcome: Outcome, commands: seq<Command>) {
    && (commands == [] || Authorized(job, commands))
    && (Succeeded(outcome) ==> Complete(job, commands))
  }

  ghost predicate CommandInv(w: World) {
    match w.run
    case Idle => true
    case Running(job, point) => CommandsAt(job, point, Commands(w.log))
    case Ended(job, outcome) => Accounted(job, outcome, Commands(w.log))
  }

  lemma CommandsAfter(log: seq<Entry>, entries: seq<Entry>)
    requires |entries| <= 1 && forall x | x in entries :: !x.Began?
    ensures Commands(log + entries)
         == if entries != [] && entries[0].Issued? then Commands(log) + [entries[0].command] else Commands(log)
  {
    if entries == [] {
      assert log + entries == log;
    } else {
      assert (log + entries)[..|log|] == log && entries[0] in entries;
    }
  }

  lemma Beginnings(plan: Plan)
    ensures [] <= Whole(plan) && plan.beforeMerge <= Whole(plan) && plan.beforeMerge + plan.requestMerge <= Whole(plan)
    ensures forall i | 0 <= i <= |plan.beforeMerge| :: plan.beforeMerge[..i] <= Whole(plan)
    ensures forall i | 0 <= i <= |plan.afterMerge| ::
              plan.beforeMerge + plan.requestMerge + plan.afterMerge[..i] <= Whole(plan)
  {
  }

  lemma BeginningsOfRepairs(plan: Plan, commands: seq<Command>, i: nat)
    requires SomeRepairs(plan, commands) && i <= |commands|
    ensures SomeRepairs(plan, commands[..i])
  {
  }

  lemma CommandBefore(w: World, job: Job, i: nat, reply: Reply)
    requires Inv(w) && CommandInv(w) && w.run == Running(job, BeforeMerge(i))
    ensures CommandInv(StepRun(w, job, BeforeMerge(i), reply))
  {
    hide Inv, Commands, EditOf, Whole, SomeRepairs;
    PointHolds(w);
    CommandsAfter(w.log, EntryOf(job, BeforeMerge(i), reply));
    var before := job.plan.beforeMerge;
    assert before[..i] + [before[i]] == before[..i + 1];
    assert before[..2] == before;
    Beginnings(job.plan);
  }

  lemma CommandMerge(w: World, job: Job, reply: Reply)
    requires Inv(w) && CommandInv(w) && w.run == Running(job, RequestMerge)
    ensures CommandInv(StepRun(w, job, RequestMerge, reply))
  {
    hide Genuine;
    hide Outstanding;
    hide Separated;
    hide Commands;
    hide EditOf;
    CommandsAfter(w.log, EntryOf(job, RequestMerge, reply));
    Beginnings(job.plan);
  }

  /** After the next mutation the run is at the one after it, or has none left. */
  lemma ReachNext(job: Job, mutations: seq<Command>, i: nat, commands: seq<Command>)
    requires i < |mutations| && Reached(job, mutations, i, commands)
    ensures Reached(job, mutations, i + 1, commands + [mutations[i]])
    ensures i + 1 == |mutations| ==> Complete(job, commands + [mutations[i]])
    ensures job.execute ==> Authorized(job, commands + [mutations[i]])
  {
    assert mutations[..i] + [mutations[i]] == mutations[..i + 1];
    assert mutations[..|mutations|] == mutations;
    if job.repair {
      BeginningsOfRepairs(job.plan, mutations, i + 1);
    } else {
      Beginnings(job.plan);
      var before := job.plan.beforeMerge + job.plan.requestMerge;
      assert (before + mutations[..i]) + [mutations[i]] == before + mutations[..i + 1];
    }
  }

  lemma CommandAfter(w: World, job: Job, receipt: Receipt, mutations: seq<Command>, i: nat, reply: Reply)
    requires Inv(w) && CommandInv(w) && w.run == Running(job, AfterMerge(receipt, mutations, i))
    ensures CommandInv(StepRun(w, job, AfterMerge(receipt, mutations, i), reply))
  {
    hide Inv;
    hide Commands;
    hide Reached;
    hide Complete;
    hide Authorized;
    hide Planned;
    PointHolds(w);
    CommandsAfter(w.log, EntryOf(job, AfterMerge(receipt, mutations, i), reply));
    ReachNext(job, mutations, i, Commands(w.log));
  }

  lemma NothingIsAuthorized(job: Job)
    requires Planned(job)
    ensures Authorized(job, []) && (!job.repair ==> job.plan.beforeMerge != [])
  {
  }

  lemma RepairsAreSome(job: Job, fields: Fields)
    requires Planned(job) && job.repair
    ensures SomeRepairs(job.plan, Repairs(fields, job.plan))
  {
    hide EditOf;
  }

  lemma CommandTracking(w: World, job: Job, pr: PullRequest, reply: Reply)
    requires Inv(w) && CommandInv(w) && w.run == Running(job, ReadTracking(pr))
    ensures CommandInv(StepRun(w, job, ReadTracking(pr), reply))
  {
    hide Inv, Commands, TrackingReady, ConfirmedMerged, ReceiptOf, Planned, Authorized, SomeRepairs, Repairs;
    PointHolds(w);
    NothingIsAuthorized(job);
    var mutations: seq<Command> := [];
    if job.repair && |job.plan.afterMerge| == 2 {
      RepairsAreSome(job, w.fields);
      mutations := Repairs(w.fields, job.plan);
    }
    assert mutations[..0] == [];
  }

  lemma CommandRead(w: World, job: Job, point: Point, reply: Reply)
    requires Inv(w) && CommandInv(w) && w.run == Running(job, point)
    requires point.ReadPending? || point.ReadPr? || point.Recheck? || point.Confirm?
    ensures CommandInv(StepRun(w, job, point, reply))
  {
    hide Inv;
    hide Commands;
    hide SameCandidate;
    hide ReadyToMerge;
    hide ConfirmedMerged;
    hide Planned;
    CommandsAfter(w.log, EntryOf(job, point, reply));
    assert PointInv(w, job, point) && Planned(job) by {
      PointHolds(w);
    }
    assert job.plan.afterMerge[..0] == [];
    Beginnings(job.plan);
  }

  lemma PointHolds(w: World)
    requires Inv(w) && w.run.Running?
    ensures PointInv(w, w.run.job, w.run.point)
    ensures !w.run.point.SaveOutcome? ==> Planned(w.run.job)
  {
  }

  lemma CommandReceipt(w: World, job: Job, receipt: Receipt, mutations: seq<Command>, reply: Reply)
    requires Inv(w) && CommandInv(w) && w.run == Running(job, SaveReceipt(receipt, mutations))
    ensures CommandInv(StepRun(w, job, SaveReceipt(receipt, mutations), reply))
  {
    hide Inv;
    hide Commands;
    hide Planned;
    PointHolds(w);
    var commands := Commands(w.log);
    CommandsAfter(w.log, EntryOf(job, SaveReceipt(receipt, mutations), reply));
    assert mutations[..0] == [];
    Beginnings(job.plan);
    assert mutations == [] && !job.repair ==> Whole(job.plan) == commands;
    assert job.repair ==> commands == [];
  }

  lemma CommandFinal(w: World, job: Job, receipt: Receipt, reply: Reply)
    requires Inv(w) && CommandInv(w) && w.run == Running(job, SaveFinal(receipt))
    ensures CommandInv(StepRun(w, job, SaveFinal(receipt), reply))
  {
    hide Inv;
    hide Commands;
    hide SomeRepairs;
    hide Planned;
    CommandsAfter(w.log, EntryOf(job, SaveFinal(receipt), reply));
    PointHolds(w);
  }

  lemma CommandSave(w: World, job: Job, point: Point, reply: Reply)
    requires Inv(w) && CommandInv(w) && w.run == Running(job, point)
    requires point.SaveConfirmed? || point.SaveRequested? || point.SaveDecision?
    ensures CommandInv(StepRun(w, job, point, reply))
  {
    hide Inv;
    hide Commands;
    hide Planned;
    CommandsAfter(w.log, EntryOf(job, point, reply));
    PointHolds(w);
    Beginnings(job.plan);
  }

  lemma OutcomeStands(w: World, job: Job, outcome: Outcome, reply: Reply)
    requires CommandInv(w) && w.run == Running(job, SaveOutcome(outcome))
    ensures CommandInv(StepRun(w, job, SaveOutcome(outcome), reply))
  {
    hide Commands;
  }

  lemma NextCommands(w: World, h: Happening)
    requires Inv(w) && CommandInv(w)
    ensures CommandInv(Next(w, h))
  {
    hide StepRun;
    hide Inv;
    hide ValidJob;
    hide Commands;
    if h.Step? && w.run.Running? {
      var job, reply := w.run.job, h.reply;
      match w.run.point
      case BeforeMerge(i) => CommandBefore(w, job, i, reply);
      case RequestMerge => CommandMerge(w, job, reply);
      case AfterMerge(receipt, mutations, i) => CommandAfter(w, job, receipt, mutations, i, reply);
      case ReadTracking(pr) => CommandTracking(w, job, pr, reply);
      case SaveFinal(receipt) => CommandFinal(w, job, receipt, reply);
      case SaveOutcome(outcome) => OutcomeStands(w, job, outcome, reply);
      case SaveReceipt(receipt, mutations) => CommandReceipt(w, job, receipt, mutations, reply);
      case ReadPending => CommandRead(w, job, w.run.point, reply);
      case ReadPr => CommandRead(w, job, w.run.point, reply);
      case Recheck => CommandRead(w, job, w.run.point, reply);
      case Confirm(_) => CommandRead(w, job, w.run.point, reply);
      case _ => CommandSave(w, job, w.run.point, reply);
    } else if h.Begin? && !w.run.Running? {
      assert Commands(w.log + [Began(h.job)]) == [] by {
        BeganClears(w.log, h.job);
      }
    }
  }

  lemma BeganClears(log: seq<Entry>, job: Job)
    ensures Commands(log + [Began(job)]) == []
  {
  }

  lemma {:induction false} HistoryCommands(w: World, hs: seq<Happening>)
    requires Fresh(w)
    ensures CommandInv(History(w, hs))
  {
    hide Next;
    hide CommandInv;
    if hs == [] {
      assert CommandInv(w) by {
        FreshCommands(w);
      }
    } else {
      HistoryCommands(w, hs[..|hs| - 1]);
      HistoryInv(w, hs[..|hs| - 1]);
      NextCommands(History(w, hs[..|hs| - 1]), hs[|hs| - 1]);
    }
  }

  lemma FreshCommands(w: World)
    requires Fresh(w)
    ensures CommandInv(w)
  {
  }

  /**
   A run that ended, whatever happened in it, issued a beginning of its plan's own commands and nothing else; a
   normal run that reports success issued all of them. A repair issued some of its plan's two updates, in order.
   */
  lemma CommandsAreThePlans(w: World, hs: seq<Happening>)
    requires Fresh(w) && History(w, hs).run.Ended?
    ensures Accounted(History(w, hs).run.job, History(w, hs).run.outcome, Commands(History(w, hs).log))
  {
    hide History;
    HistoryCommands(w, hs);
  }
}
