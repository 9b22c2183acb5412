/**
 The release controller as a machine whose every local write, remote read and remote command is one step.
 A crash may fall between any two steps, the environment may change the remote project at any time, and
 the next run starts from whatever the files hold.
 */
module Release {
  import opened Wrappers
  import Texts

  // ---------------------------------------------------------------- inputs

  datatype Context = Context(
    repository: string, baseBranch: string, headBranch: string,
    prNumber: int, issueNumber: int, projectOwner: string, projectNumber: int,
    projectId: string, projectItemId: string, statusFieldId: string,
    reviewOptionId: string, doneOptionId: string, dependencyFieldId: string)

  /** `digest` stands for the SHA-256 of the whole manifest in canonical form. */
  datatype Manifest = Manifest(repository: string, implementationSha: string, runId: string, taskId: string,
                               digest: string)

  datatype Flag = Text | SingleSelectOptionId

  datatype Command =
    | Edit(itemId: string, projectId: string, fieldId: string, flag: Flag, value: string)
    | Merge(prNumber: int, repository: string, matchHead: string)

  datatype Plan = Plan(
    repository: string, implementationSha: string, repairTracking: bool, context: Context, manifest: Manifest,
    evidenceSha256: string, evidenceText: string,
    beforeMerge: seq<Command>, requestMerge: seq<Command>, afterMerge: seq<Command>)

  predicate IsSha(text: string) {
    Texts.IsHex(text, 40)
  }

  predicate IsPrintable(text: string) {
    && text != "" && text[0] != ' ' && text[|text| - 1] != ' ' && text[0] != '-'
    && forall c | c in text :: 32 <= c as int && c as int != 127
  }

  function TextsOf(c: Context): set<string> {
    {c.repository, c.baseBranch, c.headBranch, c.projectOwner, c.projectId, c.projectItemId,
     c.statusFieldId, c.reviewOptionId, c.doneOptionId, c.dependencyFieldId}
  }

  predicate ValidContext(c: Context) {
    && c.prNumber > 0 && c.issueNumber > 0 && c.projectNumber > 0
    && (forall text :: text in TextsOf(c) ==> IsPrintable(text))
    && c.statusFieldId != c.dependencyFieldId
    && c.reviewOptionId != c.doneOptionId
    && c.headBranch != c.baseBranch
  }

  function EvidenceText(m: Manifest, c: Context): string
    requires c.issueNumber > 0
  {
    "Repository: " + c.repository + "; Issue: " + Texts.Decimal(c.issueNumber) + "; Task: " + m.taskId
    + "; Run: " + m.runId + "; Candidate: " + m.implementationSha + "; Evidence: sha256:" + m.digest
  }

  function EditOf(c: Context, fieldId: string, flag: Flag, value: string): Command {
    Edit(c.projectItemId, c.projectId, fieldId, flag, value)
  }

  function EvidenceUpdate(m: Manifest, c: Context): Command
    requires c.issueNumber > 0
  {
    EditOf(c, c.dependencyFieldId, Text, EvidenceText(m, c))
  }

  function StatusUpdate(c: Context, optionId: string): Command {
    EditOf(c, c.statusFieldId, SingleSelectOptionId, optionId)
  }

  /** The pure planner; None where it raises. */
  function BuildPlan(m: Manifest, c: Context, repair: bool): (p: Option<Plan>)
    requires ValidContext(c)
  {
    if m.repository != c.repository || !IsSha(m.implementationSha) || !IsPrintable(m.runId) || !IsPrintable(m.taskId)
    then None
    else Some(Plan(
      c.repository, m.implementationSha, repair, c, m, m.digest, EvidenceText(m, c),
      if repair then [] else [StatusUpdate(c, c.reviewOptionId), EvidenceUpdate(m, c)],
      if repair then [] else [Merge(c.prNumber, c.repository, m.implementationSha)],
      (if repair then [EvidenceUpdate(m, c)] else []) + [StatusUpdate(c, c.doneOptionId)]))
  }

  /** One invocation. The three verdicts come from evidence replay and the frozen policy. */
  datatype Job = Job(plan: Plan, repair: bool, execute: bool, enabled: bool,
                     evidencePassed: bool, allowMerge: bool, allowProject: bool)

  // ---------------------------------------------------------------- the remote pull request

  datatype CheckState = CheckRun(status: string, conclusion: string) | StatusContext(state: string) | OtherCheck

  /** A pull request as one read reports it; None is a missing or malformed field. */
  datatype PullRequest = PullRequest(
    number: Option<int>, headRefOid: Option<string>, headRefName: Option<string>, baseRefName: Option<string>,
    state: string, isDraft: Option<bool>, mergeStateStatus: string, checks: Option<seq<CheckState>>,
    mergedAt: Option<string>, mergeCommit: Option<string>)

  predicate SameCandidate(pr: PullRequest, c: Context, sha: string) {
    pr.number == Some(c.prNumber) && pr.headRefOid == Some(sha)
    && pr.headRefName == Some(c.headBranch) && pr.baseRefName == Some(c.baseBranch)
  }

  predicate CheckPassed(check: CheckState) {
    check == CheckRun("COMPLETED", "SUCCESS") || check == StatusContext("SUCCESS")
  }

  /** Ready to be merged: open, not a draft, mergeable, and every one of at least one check successful. */
  predicate ReadyToMerge(pr: PullRequest, c: Context, sha: string) {
    && SameCandidate(pr, c, sha)
    && pr.state == "OPEN" && pr.isDraft == Some(false)
    && (pr.mergeStateStatus == "CLEAN" || pr.mergeStateStatus == "HAS_HOOKS")
    && pr.checks.Some? && pr.checks.value != [] && forall check | check in pr.checks.value :: CheckPassed(check)
  }

  /** Confirmed as merged: the exact candidate, with a merge time and a merge commit. */
  predicate ConfirmedMerged(pr: PullRequest, c: Context, sha: string) {
    && SameCandidate(pr, c, sha)
    && pr.state == "MERGED"
    && pr.mergedAt.Some? && pr.mergedAt.value != ""
    && pr.mergeCommit.Some? && IsSha(pr.mergeCommit.value)
  }

  // ---------------------------------------------------------------- files and outcomes

  datatype Receipt = Receipt(repository: string, prNumber: int, context: Context, candidate: string,
                             evidence: string, baseBranch: string, mergeCommit: string, mergedAt: string)

  datatype Recorded = MergeRequested | MergePending | RecordedBlocked | RecordedMerged | RecordedRepaired

  datatype Operation = Operation(context: Context, candidate: string, evidence: string, decision: Recorded)

  datatype Decision = Blocked | Validated | Pending | Merged | MergedTrackingFailed | TrackingRepaired

  datatype Outcome = Outcome(decision: Decision, receipt: Option<Receipt>)

  function ReceiptOf(plan: Plan, pr: PullRequest): Receipt
    requires pr.mergeCommit.Some? && pr.mergedAt.Some?
  {
    Receipt(plan.repository, plan.context.prNumber, plan.context, plan.implementationSha, plan.evidenceSha256,
            plan.context.baseBranch, pr.mergeCommit.value, pr.mergedAt.value)
  }

  function OperationOf(plan: Plan, decision: Recorded): Operation {
    Operation(plan.context, plan.implementationSha, plan.evidenceSha256, decision)
  }

  predicate SameOperation(op: Operation, plan: Plan) {
    op.context == plan.context && op.candidate == plan.implementationSha && op.evidence == plan.evidenceSha256
  }

  // ---------------------------------------------------------------- the machine

  /** Project field values by item and field. */
  type Fields = map<(string, string), string>

  /** What the run is about to do next. */
  datatype Point =
    | ReadPending
    | ReadPr
    | ReadTracking(pr: PullRequest)
    | SaveConfirmed(receipt: Receipt)
    | SaveReceipt(receipt: Receipt, mutations: seq<Command>)
    | BeforeMerge(i: nat)
    | Recheck
    | SaveRequested
    | RequestMerge
    | Confirm(failed: bool)
    | SaveDecision(failed: bool)
    | AfterMerge(receipt: Receipt, mutations: seq<Command>, i: nat)
    | SaveFinal(receipt: Receipt)
    | SaveOutcome(outcome: Outcome)

  datatype RunState =
    | Idle
    | Running(job: Job, point: Point)
    | Ended(job: Job, outcome: Outcome)

  datatype Entry =
    | Began(job: Job)
    | SawPr(pr: PullRequest)
    | Issued(command: Command)
    | WroteOperation(operation: Operation)
    | WroteReceipt(receipt: Receipt)

  /**
   `operation` and `receipt` are the two files, `fields` the remote project. `log` is the history of the
   controller's own actions, and `undisturbed` says that nobody else has edited since the run began.
   */
  datatype World = World(operation: Option<Operation>, receipt: Option<Receipt>, fields: Fields,
                         run: RunState, undisturbed: bool, log: seq<Entry>)

  /**
   What the environment answers to the next step: a read returns `pr` or fails; a check of the remaining
   discovery, a command or a save succeeds or fails; a command reported as failed may still have taken effect.
   */
  datatype Reply = Reply(ok: bool, effect: bool, pr: Option<PullRequest>)

  datatype Happening =
    | Begin(job: Job)
    | Step(reply: Reply)
    | Crash
    | Outside(fields: Fields)

  function At(w: World, job: Job, point: Point): World {
    w.(run := Running(job, point))
  }

  /** The run is over; with automation enabled its outcome is still to be written. */
  function Finish(w: World, job: Job, decision: Decision, receipt: Option<Receipt>): World {
    var outcome := Outcome(decision, receipt);
    w.(run := if job.execute && job.enabled then Running(job, SaveOutcome(outcome)) else Ended(job, outcome))
  }

  function Note(w: World, entry: Entry): World {
    w.(log := w.log + [entry])
  }

  function SeePr(w: World, pr: Option<PullRequest>): World {
    if pr.Some? then Note(w, SawPr(pr.value)) else w
  }

  function WriteOperation(w: World, op: Operation): World {
    Note(w.(operation := Some(op)), WroteOperation(op))
  }

  function WriteReceipt(w: World, receipt: Receipt): World {
    Note(w.(receipt := Some(receipt)), WroteReceipt(receipt))
  }

  function Effect(fields: Fields, command: Command): Fields {
    match command
    case Edit(itemId, _, fieldId, _, value) => fields[(itemId, fieldId) := value]
    case Merge(_, _, _) => fields
  }

  /** A command is issued; it takes effect when it is accepted, and perhaps even when it is not. */
  function Issue(w: World, command: Command, reply: Reply): World {
    Note(w.(fields := if reply.ok || reply.effect then Effect(w.fields, command) else w.fields), Issued(command))
  }

  predicate ValidJob(job: Job) {
    && ValidContext(job.plan.context)
    && BuildPlan(job.plan.manifest, job.plan.context, job.repair) == Some(job.plan)
    && (job.execute ==> job.enabled)
    && job.evidencePassed && job.allowProject && (job.allowMerge || job.repair)
  }

  /** Everything before the first remote read: the plan, the guard, the replayed evidence, the two files. */
  function BeginRun(w0: World, job: Job): World {
    var w := Note(w0.(undisturbed := true), Began(job));
    if !ValidJob(job) then Finish(w, job, Blocked, None)
    else if job.repair then At(w, job, ReadPr)
    else if w.receipt.Some? then Finish(w, job, Blocked, None)
    else if w.operation.None? then At(w, job, ReadPr)
    else if !SameOperation(w.operation.value, job.plan) then Finish(w, job, Blocked, None)
    else if w.operation.value.decision.MergeRequested? || w.operation.value.decision.MergePending?
    then At(w, job, ReadPending)
    else At(w, job, ReadPr)
  }

  /** An existing merge request is observed, never issued again. */
  function OnPending(w: World, job: Job, pr: Option<PullRequest>): World {
    if pr.Some? && SameCandidate(pr.value, job.plan.context, job.plan.implementationSha) && pr.value.state == "OPEN"
    then Finish(w, job, Pending, None)
    else Finish(w, job, Blocked, None)
  }

  function OnPr(w: World, job: Job, pr: Option<PullRequest>): World {
    var c, sha := job.plan.context, job.plan.implementationSha;
    if pr.Some? && (if job.repair then ConfirmedMerged(pr.value, c, sha) else ReadyToMerge(pr.value, c, sha))
    then At(w, job, ReadTracking(pr.value))
    else Finish(w, job, Blocked, None)
  }

  function StatusKey(c: Context): (string, string) {
    (c.projectItemId, c.statusFieldId)
  }

  function EvidenceKey(c: Context): (string, string) {
    (c.projectItemId, c.dependencyFieldId)
  }

  /** The tracking item says Done and carries the plan's evidence text. */
  predicate Tracked(fields: Fields, plan: Plan) {
    && StatusKey(plan.context) in fields && fields[StatusKey(plan.context)] == plan.context.doneOptionId
    && EvidenceKey(plan.context) in fields && fields[EvidenceKey(plan.context)] == plan.evidenceText
  }

  /** A normal run needs the evidence text in place and an item that is not Done yet. */
  predicate TrackingReady(w: World, job: Job, reply: Reply) {
    var c := job.plan.context;
    && reply.ok && StatusKey(c) in w.fields
    && (job.repair || (&& EvidenceKey(c) in w.fields && w.fields[EvidenceKey(c)] == job.plan.evidenceText
                       && w.fields[StatusKey(c)] != c.doneOptionId))
  }

  /** Only differing tracking fields are written by a repair. */
  function Repairs(fields: Fields, plan: Plan): seq<Command>
    requires |plan.afterMerge| == 2
  {
    var c := plan.context;
    (if EvidenceKey(c) in fields && fields[EvidenceKey(c)] == plan.evidenceText then [] else [plan.afterMerge[0]])
    + (if StatusKey(c) in fields && fields[StatusKey(c)] == c.doneOptionId then [] else [plan.afterMerge[1]])
  }

  function OnTracking(w: World, job: Job, pr: PullRequest, reply: Reply): World {
    if !job.repair then
      if !TrackingReady(w, job, reply) then Finish(w, job, Blocked, None)
      else if !job.execute then Finish(w, job, Validated, None)
      else At(w, job, BeforeMerge(0))
    else if pr.mergeCommit.None? || pr.mergedAt.None? || |job.plan.afterMerge| != 2 then Finish(w, job, Blocked, None)
    else
      var receipt := ReceiptOf(job.plan, pr);
      if w.receipt.Some? && w.receipt.value != receipt then Finish(w, job, Blocked, None)
      else if !TrackingReady(w, job, reply) then
        if job.execute then At(w, job, SaveConfirmed(receipt)) else Finish(w, job, MergedTrackingFailed, Some(receipt))
      else if !job.execute then Finish(w, job, Validated, None)
      else At(w, job, SaveReceipt(receipt, Repairs(w.fields, job.plan)))
  }

  function OnBefore(w: World, job: Job, i: nat, reply: Reply): World {
    if i < |job.plan.beforeMerge| then
      var w' := Issue(w, job.plan.beforeMerge[i], reply);
      if !reply.ok then Finish(w', job, Blocked, None)
      else if i + 1 < |job.plan.beforeMerge| then At(w', job, BeforeMerge(i + 1))
      else At(w', job, Recheck)
    else At(w, job, Recheck)
  }

  function OnRecheck(w: World, job: Job, pr: Option<PullRequest>): World {
    if pr.Some? && ReadyToMerge(pr.value, job.plan.context, job.plan.implementationSha)
    then At(w, job, SaveRequested)
    else Finish(w, job, Blocked, None)
  }

  function OnRequestMerge(w: World, job: Job, reply: Reply): World {
    if job.plan.requestMerge == [] then Finish(w, job, Blocked, None)
    else At(Issue(w, job.plan.requestMerge[0], reply), job, Confirm(!reply.ok))
  }

  function OnConfirm(w: World, job: Job, failed: bool, pr: Option<PullRequest>): World {
    var c, sha := job.plan.context, job.plan.implementationSha;
    if pr.None? then Finish(w, job, Blocked, None)
    else if pr.value.state != "MERGED" then
      if SameCandidate(pr.value, c, sha) && pr.value.state == "OPEN" then At(w, job, SaveDecision(failed))
      else Finish(w, job, Blocked, None)
    else if ConfirmedMerged(pr.value, c, sha) then
      At(w, job, SaveReceipt(ReceiptOf(job.plan, pr.value), job.plan.afterMerge))
    else Finish(w, job, Blocked, None)
  }

  function OnSaveDecision(w: World, job: Job, failed: bool, reply: Reply): World {
    if !reply.ok then Finish(w, job, Blocked, None)
    else
      var w' := WriteOperation(w, OperationOf(job.plan, if failed then RecordedBlocked else MergePending));
      Finish(w', job, if failed then Blocked else Pending, None)
  }

  function OnAfter(w: World, job: Job, receipt: Receipt, mutations: seq<Command>, i: nat, reply: Reply): World {
    if i < |mutations| then
      var w' := Issue(w, mutations[i], reply);
      if !reply.ok then Finish(w', job, MergedTrackingFailed, Some(receipt))
      else NextMutation(w', job, receipt, mutations, i + 1)
    else At(w, job, SaveFinal(receipt))
  }

  function NextMutation(w: World, job: Job, receipt: Receipt, mutations: seq<Command>, i: nat): World {
    At(w, job, if i < |mutations| then AfterMerge(receipt, mutations, i) else SaveFinal(receipt))
  }

  function OnSaveFinal(w: World, job: Job, receipt: Receipt, reply: Reply): World {
    if !reply.ok then Finish(w, job, MergedTrackingFailed, Some(receipt))
    else
      var w' := WriteOperation(w, OperationOf(job.plan, if job.repair then RecordedRepaired else RecordedMerged));
      Finish(w', job, if job.repair then TrackingRepaired else Merged, Some(receipt))
  }

  /** An outcome that cannot be written is weakened, but a confirmed merge stays confirmed. */
  function OnSaveOutcome(w: World, job: Job, outcome: Outcome, reply: Reply): World {
    w.(run := Ended(job, if reply.ok then outcome
                         else outcome.(decision := if outcome.receipt.Some? then MergedTrackingFailed else Blocked)))
  }

  function StepRun(w: World, job: Job, point: Point, reply: Reply): World {
    match point
    case ReadPending => OnPending(SeePr(w, reply.pr), job, reply.pr)
    case ReadPr => OnPr(SeePr(w, reply.pr), job, reply.pr)
    case ReadTracking(pr) => OnTracking(w, job, pr, reply)
    case SaveConfirmed(receipt) =>
      Finish(if reply.ok then WriteReceipt(w, receipt) else w, job, MergedTrackingFailed, Some(receipt))
    case SaveReceipt(receipt, mutations) =>
      if reply.ok then NextMutation(WriteReceipt(w, receipt), job, receipt, mutations, 0)
      else Finish(w, job, MergedTrackingFailed, Some(receipt))
    case BeforeMerge(i) => OnBefore(w, job, i, reply)
    case Recheck => OnRecheck(SeePr(w, reply.pr), job, reply.pr)
    case SaveRequested =>
      if reply.ok then At(WriteOperation(w, OperationOf(job.plan, MergeRequested)), job, RequestMerge)
      else Finish(w, job, Blocked, None)
    case RequestMerge => OnRequestMerge(w, job, reply)
    case Confirm(failed) => OnConfirm(SeePr(w, reply.pr), job, failed, reply.pr)
    case SaveDecision(failed) => OnSaveDecision(w, job, failed, reply)
    case AfterMerge(receipt, mutations, i) => OnAfter(w, job, receipt, mutations, i, reply)
    case SaveFinal(receipt) => OnSaveFinal(w, job, receipt, reply)
    case SaveOutcome(outcome) => OnSaveOutcome(w, job, outcome, reply)
  }

  function Next(w: World, h: Happening): World {
    match h
    case Begin(job) => if w.run.Running? then w else BeginRun(w, job)
    case Step(reply) => if w.run.Running? then StepRun(w, w.run.job, w.run.point, reply) else w
    case Crash => w.(run := Idle)
    case Outside(fields) => w.(fields := fields, undisturbed := false)
  }

  /** Any sequence of runs, replies, crashes and outside edits. */
  function History(w: World, hs: seq<Happening>): World {
    if hs == [] then w else Next(History(w, hs[..|hs| - 1]), hs[|hs| - 1])
  }

  /** A state root nobody has used yet, beside a project in any state. */
  predicate Fresh(w: World) {
    w.operation.None? && w.receipt.None? && w.run.Idle? && w.log == []
  }
}
