/**
 `_execute_release_plan` as it is written: one procedure with early exits that reads and replaces the two
 files as it goes. The environment's answers are a finite list; where the list ends, the process dies.
 */
module ReleaseControllers {
  import opened Wrappers
  import R = Release
  import opened Release
  import opened ReleaseSafety

  /** The machine fed one reply after another. */
  ghost function Fed(w: World, replies: seq<Reply>): World
    decreases |replies|
  {
    if replies == [] then w else Fed(Next(w, Step(replies[0])), replies[1..])
  }

  lemma {:induction false} EndedIgnores(w: World, replies: seq<Reply>)
    requires w.run.Ended?
    ensures Fed(w, replies) == w
    decreases |replies|
  {
    if replies != [] {
      EndedIgnores(w, replies[1..]);
    }
  }

  /** The files and the project, which are what the procedure sees of a world. */
  predicate SameStores(a: World, b: World) {
    a.operation == b.operation && a.receipt == b.receipt && a.fields == b.fields
  }

  lemma ReadsChangeNothing(w: World)
    requires w.run.Running?
    requires w.run.point.ReadPending? || w.run.point.ReadPr? || w.run.point.Recheck? || w.run.point.Confirm?
    ensures forall reply :: SameStores(Next(w, Step(reply)), w)
  {
    hide ReadyToMerge, ConfirmedMerged, SameCandidate;
  }

  /** The machine is about to issue this command. */
  predicate IsNextCommand(w: World, command: Command) {
    w.run.Running? && match w.run.point
      case BeforeMerge(i) => i < |w.run.job.plan.beforeMerge| && w.run.job.plan.beforeMerge[i] == command
      case RequestMerge => w.run.job.plan.requestMerge == [command]
      case AfterMerge(_, mutations, i) => i < |mutations| && mutations[i] == command
      case _ => false
  }

  lemma CommandsTakeEffect(w: World, command: Command)
    requires IsNextCommand(w, command)
    ensures forall reply :: SameStores(Next(w, Step(reply)),
      if reply.ok || reply.effect then w.(fields := Effect(w.fields, command)) else w)
  {
    hide Effect;
  }

  function Steps(replies: seq<Reply>): (hs: seq<Happening>)
    ensures |hs| == |replies|
  {
    seq(|replies|, i requires 0 <= i < |replies| => Step(replies[i]))
  }

  /** Feeding replies to a machine with a past only makes its past longer. */
  lemma {:induction false} FedIsHistory(start: World, past: seq<Happening>, replies: seq<Reply>)
    ensures Fed(History(start, past), replies) == History(start, past + Steps(replies))
    decreases |replies|
  {
    hide Next;
    if replies == [] {
      assert past + Steps(replies) == past;
    } else {
      var next := past + [Step(replies[0])];
      assert next[..|past|] == past;
      FedIsHistory(start, next, replies[1..]);
      assert next + Steps(replies[1..]) == past + Steps(replies);
    }
  }

  /** A new invocation finds what a crash would have left. */
  lemma InvocationIsHistory(start: World, past: seq<Happening>, w: World, job: Job)
    requires SameStores(w, History(start, past)) && w.log == History(start, past).log && w.run.Idle?
    ensures Next(w, Begin(job)) == History(start, past + [Crash, Begin(job)])
  {
    hide ValidJob;
    var crashed := past + [Crash];
    assert crashed[..|past|] == past;
    assert past + [Crash, Begin(job)] == crashed + [Begin(job)];
    assert (crashed + [Begin(job)])[..|crashed|] == crashed;
  }

  /** Somebody else's edit is part of the history as well. */
  lemma EditIsHistory(start: World, past: seq<Happening>, edited: Fields)
    ensures var w, after := History(start, past), History(start, past + [Outside(edited)]);
            SameStores(after, w.(fields := edited)) && after.log == w.log
  {
    assert (past + [Outside(edited)])[..|past|] == past;
  }

  lemma BeginReadsTheFiles(w: World, job: Job)
    requires !w.run.Running?
    ensures var after := Next(w, Begin(job));
            && SameStores(after, w) && after.log == w.log + [Began(job)] && after.run == BeginRun(after, job).run
  {
    hide ValidJob, SameOperation;
  }

  class Controller {
    /** release-operation.json and release-receipt.json */
    var operation: Option<Operation>
    var receipt: Option<Receipt>
    /** The remote project, as the environment keeps it between commands. */
    var fields: Fields
    var replies: seq<Reply>
    ghost var log: seq<Entry>
    ghost var machine: World
    ghost var goal: World
    /** Where the machine began, and all that has happened since. */
    ghost var start: World
    ghost var past: seq<Happening>

    ghost function Snapshot(): World
      reads this
    {
      World(operation, receipt, fields, Idle, true, log)
    }

    constructor ()
      ensures Fresh(Snapshot()) && Lived()
    {
      operation, receipt, fields, replies, log := None, None, map[], [], [];
      start, past := World(None, None, map[], Idle, true, []), [];
    }

    /** The files, the project and the log are what the machine's history so far has made of them. */
    ghost predicate Lived()
      reads this
    {
      Fresh(start) && SameStores(Snapshot(), History(start, past)) && log == History(start, past).log
    }

    /** Between two invocations anybody may edit the project. */
    method Disturb(edited: Fields)
      requires Lived()
      modifies this`fields, this`past
      ensures Lived() && fields == edited
    {
      hide History;
      EditIsHistory(start, past, edited);
      fields, past := edited, past + [Outside(edited)];
    }

    /** However often it is invoked, and wherever it dies, the procedure never merges while a merge is outstanding. */
    lemma ItsMergesAreSeparated()
      requires Lived()
      ensures Separated(log) && Merges(log) <= 1 + BlockedRecords(log)
    {
      MergesAreSeparated(start, past);
    }

    /** The files and the remote are what the machine says they are, and the machine is on its way to the goal. */
    ghost predicate Valid()
      reads this
    {
      && operation == machine.operation && receipt == machine.receipt && fields == machine.fields
      && log == machine.log && Fed(machine, replies) == goal
    }

    ghost predicate IsAt(job: Job, point: Point)
      reads this
    {
      Valid() && machine.run == Running(job, point)
    }

    /** What a phase leaves: the process died where the replies ended, or it returned what the machine reports. */
    ghost predicate Over(job: Job, r: Option<Outcome>)
      reads this
    {
      Valid() && machine == goal && if r.Some? then machine.run == Ended(job, r.value) else machine.run.Running?
    }

    /** Wait for the environment; None is the end of this process. What was done is still to be noted. */
    method Await() returns (reply: Option<Reply>)
      requires Valid() && machine.run.Running?
      modifies this`replies, this`machine
      ensures reply.None? ==> machine == old(machine) == goal && replies == old(replies)
      ensures reply.Some? ==> machine == Next(old(machine), Step(reply.value)) && Fed(machine, replies) == goal
      ensures reply.Some? ==>
        machine.log == log + EntryOf(old(machine.run.job), old(machine.run.point), reply.value)
    {
      hide StepRun, EntryOf;
      if replies == [] {
        return None;
      }
      reply := Some(replies[0]);
      StepLogs(machine, machine.run.job, machine.run.point, replies[0]);
      machine := Next(machine, Step(replies[0]));
      replies := replies[1..];
    }

    /** `_read` of the pull request. */
    method ViewPr() returns (reply: Option<Reply>)
      requires Valid() && machine.run.Running?
      requires machine.run.point.ReadPending? || machine.run.point.ReadPr?
            || machine.run.point.Recheck? || machine.run.point.Confirm?
      modifies this`replies, this`machine, this`log
      ensures Valid()
      ensures reply.None? ==> machine == goal == old(machine)
      ensures reply.Some? ==> machine == Next(old(machine), Step(reply.value))
    {
      hide Next, Fed;
      ReadsChangeNothing(machine);
      reply := Await();
      if reply.Some? && reply.value.pr.Some? {
        log := log + [SawPr(reply.value.pr.value)];
      }
    }

    /** `_mutation`: the command may take effect even when it is reported as failed. */
    method Mutate(command: Command) returns (reply: Option<Reply>)
      requires Valid() && IsNextCommand(machine, command)
      modifies this`replies, this`machine, this`fields, this`log
      ensures Valid()
      ensures reply.None? ==> machine == goal == old(machine)
      ensures reply.Some? ==> machine == Next(old(machine), Step(reply.value))
    {
      hide Next, Fed;
      CommandsTakeEffect(machine, command);
      reply := Await();
      if reply.Some? {
        log := log + [Issued(command)];
      }
      if reply.Some? && (reply.value.ok || reply.value.effect) {
        fields := Effect(fields, command);
      }
    }

    /** `_save` of the operation record: all of it or nothing. */
    method SaveOperation(job: Job, decision: Recorded) returns (reply: Option<Reply>)
      requires Valid() && machine.run.Running? && machine.run.job == job
      requires match machine.run.point
               case SaveRequested => decision == MergeRequested
               case SaveDecision(failed) => decision == if failed then RecordedBlocked else MergePending
               case SaveFinal(_) => decision == if job.repair then RecordedRepaired else RecordedMerged
               case _ => false
      modifies this`replies, this`machine, this`operation, this`log
      ensures Valid()
      ensures reply.None? ==> machine == goal == old(machine)
      ensures reply.Some? ==> machine == Next(old(machine), Step(reply.value))
    {
      hide Fed, OnPending, OnPr, OnTracking, OnBefore, OnRecheck, OnRequestMerge, OnConfirm, OnAfter, OperationOf;
      reply := Await();
      if reply.Some? && reply.value.ok {
        operation := Some(OperationOf(job.plan, decision));
        log := log + [WroteOperation(operation.value)];
      }
    }

    method SaveTheReceipt(confirmed: Receipt) returns (reply: Option<Reply>)
      requires Valid() && machine.run.Running?
      requires match machine.run.point
               case SaveConfirmed(r) => r == confirmed
               case SaveReceipt(r, _) => r == confirmed
               case _ => false
      modifies this`replies, this`machine, this`receipt, this`log
      ensures Valid()
      ensures reply.None? ==> machine == goal == old(machine)
      ensures reply.Some? ==> machine == Next(old(machine), Step(reply.value))
    {
      hide Fed, OnPending, OnPr, OnTracking, OnBefore, OnRecheck, OnRequestMerge, OnConfirm, OnSaveFinal;
      reply := Await();
      if reply.Some? && reply.value.ok {
        receipt := Some(confirmed);
        log := log + [WroteReceipt(confirmed)];
      }
    }

    /** Return an outcome through `execute_release_plan`, which writes it when automation is enabled. */
    method Report(job: Job, decision: Decision, confirmed: Option<Receipt>) returns (r: Option<Outcome>)
      requires Valid() && machine.run == R.Finish(machine, job, decision, confirmed).run
      modifies this`replies, this`machine
      ensures Over(job, r)
    {
      var outcome := Outcome(decision, confirmed);
      if job.execute && job.enabled {
        var reply := Await();
        if reply.None? {
          return None;
        }
        if !reply.value.ok {
          outcome := outcome.(decision := if confirmed.Some? then MergedTrackingFailed else Blocked);
        }
      }
      EndedIgnores(machine, replies);
      return Some(outcome);
    }

    /** One invocation, from the files as they are. None means that it died on the way. */
    method Execute(job: Job, replies: seq<Reply>) returns (r: Option<Outcome>)
      modifies this
      ensures var after := Fed(Next(old(Snapshot()), Begin(job)), replies);
              && operation == after.operation && receipt == after.receipt && fields == after.fields && log == after.log
              && r == if after.run.Ended? then Some(after.run.outcome) else None
      ensures past == old(past) + [Crash, Begin(job)] + Steps(replies)
      ensures old(Lived()) ==> Lived()
    {
      hide Next, BeginRun, Fed, History, Steps;
      BeginReadsTheFiles(Snapshot(), job);
      if Lived() {
        InvocationIsHistory(start, past, Snapshot(), job);
        FedIsHistory(start, past + [Crash, Begin(job)], replies);
      }
      past := past + [Crash, Begin(job)] + Steps(replies);
      machine := Next(Snapshot(), Begin(job));
      log := log + [Began(job)];
      this.replies := replies;
      goal := Fed(machine, replies);
      r := Start(job);
    }

    /** The plan, the guard and the two files decide how an invocation starts. */
    method Start(job: Job) returns (r: Option<Outcome>)
      requires Valid() && machine.run == BeginRun(machine, job).run
      modifies this`operation, this`receipt, this`fields, this`replies, this`log, this`machine
      ensures Over(job, r)
    {
      hide ValidJob, Fed;
      if !ValidJob(job) {
        r := Report(job, Blocked, None);
      } else if job.repair {
        r := Discover(job);
      } else if receipt.Some? {
        r := Report(job, Blocked, None);
      } else if operation.Some? && !SameOperation(operation.value, job.plan) {
        r := Report(job, Blocked, None);
      } else if operation.Some?
                && (operation.value.decision.MergeRequested? || operation.value.decision.MergePending?) {
        r := ObservePending(job);
      } else {
        r := Discover(job);
      }
    }

    method ObservePending(job: Job) returns (r: Option<Outcome>)
      requires IsAt(job, ReadPending)
      modifies this`operation, this`receipt, this`fields, this`replies, this`log, this`machine
      ensures Over(job, r)
    {
      hide SameCandidate;
      hide Fed;
      var reply := ViewPr();
      if reply.None? {
        return None;
      }
      var pr := reply.value.pr;
      if pr.Some? && SameCandidate(pr.value, job.plan.context, job.plan.implementationSha) && pr.value.state == "OPEN" {
        r := Report(job, Pending, None);
      } else {
        r := Report(job, Blocked, None);
      }
    }

    method Discover(job: Job) returns (r: Option<Outcome>)
      requires IsAt(job, ReadPr) && ValidJob(job)
      modifies this`operation, this`receipt, this`fields, this`replies, this`log, this`machine
      ensures Over(job, r)
    {
      hide ReadyToMerge;
      hide ConfirmedMerged;
      hide ValidJob;
      hide Fed;
      var reply := ViewPr();
      if reply.None? {
        return None;
      }
      var pr, c, sha := reply.value.pr, job.plan.context, job.plan.implementationSha;
      if pr.None? || !(if job.repair then ConfirmedMerged(pr.value, c, sha) else ReadyToMerge(pr.value, c, sha)) {
        r := Report(job, Blocked, None);
      } else {
        r := Track(job, pr.value);
      }
    }

    /** The rest of discovery: the project item, the issue and its tracking record. */
    method Track(job: Job, pr: PullRequest) returns (r: Option<Outcome>)
      requires IsAt(job, ReadTracking(pr)) && ValidJob(job)
      requires job.repair ==> ConfirmedMerged(pr, job.plan.context, job.plan.implementationSha)
      modifies this`operation, this`receipt, this`fields, this`replies, this`log, this`machine
      ensures Over(job, r)
    {
      hide ValidJob;
      hide Fed;
      hide SameCandidate;
      hide IsSha;
      ValidJobIsPlanned(job);
      ghost var before := machine;
      var reply := Await();
      if reply.None? {
        return None;
      }
      var ready := TrackingReady(World(operation, receipt, fields, Idle, true, []), job, reply.value);
      assert ready == TrackingReady(before, job, reply.value);
      hide TrackingReady;
      if !job.repair {
        if !ready {
          r := Report(job, Blocked, None);
        } else if !job.execute {
          r := Report(job, Validated, None);
        } else {
          r := RequestTheMerge(job);
        }
        return;
      }
      var confirmed := ReceiptOf(job.plan, pr);
      if receipt.Some? && receipt.value != confirmed {
        r := Report(job, Blocked, None);
      } else if !ready {
        if job.execute {
          var saved := SaveTheReceipt(confirmed);
          if saved.None? {
            return None;
          }
        }
        r := Report(job, MergedTrackingFailed, Some(confirmed));
      } else if !job.execute {
        r := Report(job, Validated, None);
      } else {
        r := RecordMerge(job, confirmed, Repairs(fields, job.plan));
      }
    }

    /** The normal path from a passed preflight to the merge and its confirmation. */
    method RequestTheMerge(job: Job) returns (r: Option<Outcome>)
      requires IsAt(job, BeforeMerge(0)) && Planned(job) && !job.repair
      modifies this`operation, this`receipt, this`fields, this`replies, this`log, this`machine
      ensures Over(job, r)
    {
      hide Fed;
      hide ReadyToMerge;
      hide EditOf;
      var first := Mutate(job.plan.beforeMerge[0]);
      if first.None? {
        return None;
      }
      if !first.value.ok {
        r := Report(job, Blocked, None);
        return;
      }
      var second := Mutate(job.plan.beforeMerge[1]);
      if second.None? {
        return None;
      }
      if !second.value.ok {
        r := Report(job, Blocked, None);
        return;
      }
      r := RecheckAndMerge(job);
    }

    method RecheckAndMerge(job: Job) returns (r: Option<Outcome>)
      requires IsAt(job, Recheck) && Planned(job) && !job.repair
      modifies this`operation, this`receipt, this`fields, this`replies, this`log, this`machine
      ensures Over(job, r)
    {
      hide Fed;
      hide ReadyToMerge;
      hide EditOf;
      var seen := ViewPr();
      if seen.None? {
        return None;
      }
      if seen.value.pr.None? || !ReadyToMerge(seen.value.pr.value, job.plan.context, job.plan.implementationSha) {
        r := Report(job, Blocked, None);
        return;
      }
      var saved := SaveOperation(job, MergeRequested);
      if saved.None? {
        return None;
      }
      if !saved.value.ok {
        r := Report(job, Blocked, None);
        return;
      }
      var merged := Mutate(job.plan.requestMerge[0]);
      if merged.None? {
        return None;
      }
      r := ConfirmMerge(job, !merged.value.ok);
    }

    method ConfirmMerge(job: Job, failed: bool) returns (r: Option<Outcome>)
      requires IsAt(job, Confirm(failed)) && Planned(job) && !job.repair
      modifies this`operation, this`receipt, this`fields, this`replies, this`log, this`machine
      ensures Over(job, r)
    {
      hide Fed;
      hide SameCandidate;
      hide IsSha;
      hide EditOf;
      var reply := ViewPr();
      if reply.None? {
        return None;
      }
      var pr, c, sha := reply.value.pr, job.plan.context, job.plan.implementationSha;
      if pr.None? {
        r := Report(job, Blocked, None);
      } else if pr.value.state != "MERGED" {
        if !SameCandidate(pr.value, c, sha) || pr.value.state != "OPEN" {
          r := Report(job, Blocked, None);
          return;
        }
        var saved := SaveOperation(job, if failed then RecordedBlocked else MergePending);
        if saved.None? {
          return None;
        }
        r := Report(job, if saved.value.ok && !failed then Pending else Blocked, None);
      } else if !ConfirmedMerged(pr.value, c, sha) {
        r := Report(job, Blocked, None);
      } else {
        r := RecordMerge(job, ReceiptOf(job.plan, pr.value), job.plan.afterMerge);
      }
    }

    /** Store the receipt before any further edit, then bring the tracking up to date and record the end. */
    method RecordMerge(job: Job, confirmed: Receipt, mutations: seq<Command>) returns (r: Option<Outcome>)
      requires IsAt(job, SaveReceipt(confirmed, mutations))
      modifies this`operation, this`receipt, this`fields, this`replies, this`log, this`machine
      ensures Over(job, r)
    {
      hide Fed;
      var saved := SaveTheReceipt(confirmed);
      if saved.None? {
        return None;
      }
      if !saved.value.ok {
        r := Report(job, MergedTrackingFailed, Some(confirmed));
        return;
      }
      for i := 0 to |mutations|
        invariant Valid()
        invariant machine.run == NextMutation(machine, job, confirmed, mutations, i).run
      {
        var edited := Mutate(mutations[i]);
        if edited.None? {
          return None;
        }
        if !edited.value.ok {
          r := Report(job, MergedTrackingFailed, Some(confirmed));
          return;
        }
      }
      var recorded := SaveOperation(job, if job.repair then RecordedRepaired else RecordedMerged);
      if recorded.None? {
        return None;
      }
      if recorded.value.ok {
        r := Report(job, if job.repair then TrackingRepaired else Merged, Some(confirmed));
      } else {
        r := Report(job, MergedTrackingFailed, Some(confirmed));
      }
    }
  }
}
