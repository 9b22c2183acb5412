# A verified model of the autonomy and catalog cores

This project models five parts of the repository in Dafny and proves what they are for. The order of the files
follows the order below.

1. **The app-server session and its replay** (`scripts/autonomy/app_server_adapter.py`). `Protocol.dfy` gives the
   meaning of one frame; `Sessions.dfy` is the object with the same fields, each method proved against that meaning;
   `Conversation.dfy` and `Verdicts.dfy` prove what holds of every accepted frame sequence; `Adapter.dfy` adds the
   run around the session, with its reading, recording and replaying. `FrameRules.dfy` spells out on the fields of a
   frame when it is taken, and `Resolutions.dfy` what a finished session has confirmed; `Replays.dfy` concludes what
   every accepted recording is, and `SmallestSession.dfy` when there is one.
2. **The crash-safe release controller** (`scripts/autonomy/release_controller.py`). `Release.dfy` is a machine whose
   every file write, remote read and remote command is one step, with crashes and outside edits between any two.
   `ReleaseSafety.dfy`, `ReleaseTracking.dfy` and `ReleaseRecovery.dfy` prove properties of all its histories,
   `ReleaseStories.dfy` what the log of every run looks like and `ReleaseDecisions.dfy` what each reading decides;
   `ReleaseControllers.dfy` is the procedure as the source writes it, proved to refine the machine;
   `ReleaseProjectItem.dfy` is the paged look-up of the tracked item.
3. **Evidence replay** (`runner.py`, `orchestrator.py`, `validate_run.py`). `JsonPointer.dfy`, `Provenance.dfy`,
   `Evidence.dfy` and `Bundles.dfy`, ending in one theorem about what a passed bundle means; `EvidenceRules.dfy` spells
   out on the records of a bundle exactly when it passes.
4. **The finite canary run** (`bank_canary_capture.py`, `bank_canary_transport.py`). `CaptureStream.dfy`,
   `Canary.dfy` and `CanaryRuns.dfy`, ending in one contract on the whole run; `CanaryRules.dfy` spells out the
   enrollments it accepts.
5. **Slugs, catalog selectors, vehicle identity and the surrogate scanner** (`vehicle_identity.go`,
   `catalog_store.go`, `purchase_config.go`). `Slugs.dfy`, `Catalogs.dfy`, `CatalogRules.dfy`, `Identities.dfy`,
   `IdentityLaws.dfy`, `IdentityKeys.dfy`, `IdentityRules.dfy` and `SurrogateScan.dfy`; those on keys and rules say which
   rows share a family or a configuration, and which records an id.

`Wrappers.dfy`, `Texts.dfy` and `JsonValues.dfy` hold what they share: optional values and checks, numerals, the order
of strings and sorting, and JSON values with Python's equality.

Where the source is a class or a loop that updates variables, the model is a class or a method with the same loop; its
contract equates the result or the new state with a specification, and the lemmas are about the specification. Code
that is not shown (clocks, files, servers, hashing, JSON text) is a parameter or may answer anything at every call.

Five places where the code does not do what one would expect are stated exactly instead of being assumed away:

- A body style of spaces only counts as a conflict, but only when it comes after a stated one. `VerdictIgnoresOrder`
  and `VerdictNeedsOrder` say for every batch whether the order of its rows decides the status;
  `OrderDependentBatch` gives two rows with two verdicts.
- Normalising a drivetrain twice is not always the same as once. `DrivetrainStability` says for which texts it is: those
  that have no white space just inside the spaces, dashes and underscores around them; `UnstableDrivetrain` gives an
  input where it is not (`-`, tab, `4x4`).
- A name without a letter or digit has an empty slug and cannot be found again through it.
  `CascadeReturnsTheRecord` says exactly which records the cascade returns; `DashIsNotReturned` gives one it does not.
- The key of a vehicle does not say where its make, model, year and region end. `KeysAreTheirWords` says for rows with
  words exactly which share a key, and `YearsAreApart` that rows alike in make, model and region share one exactly when
  their years are equal; `IdentityKeys.DividedOtherwise` gives two rows of different years with one key (model `Focus`
  of 2019 in region `2020`, and model `Focus 2019` of 2020).
- Nor does the id that a catalog record gets. `IdsTellApart` says when records that differ in one name or in the year
  share an id; `CatalogRules.DividedOtherwise` gives two records that do, so that the later replaces the earlier.

## Model

| member | source | states |
|---|---|---|
| Conversation.CompleteScript | scripts/autonomy/app_server_adapter.py:109-259 | In every accepted frame sequence that has identified its turn, the client frames are exactly initialize, initialized, k model/list requests with 1 <= k <= 16, thread/start and turn/start; ids are 1 to k+3, each is answered in order, and each page request carries the cursor of the response before it |
| Conversation.CompleteCatalog | scripts/autonomy/app_server_adapter.py:227-257 | The catalog was read to a page without a cursor, all cursors are distinct, and the session's thread and turn are those of the thread/start and turn/start responses |
| Conversation.OneOpenRequest | scripts/autonomy/app_server_adapter.py:132-153 | In every state of every accepted sequence at most one id-bearing request is queued or unanswered |
| Conversation.ResponseStep | scripts/autonomy/app_server_adapter.py:146-259 | Answering the open request keeps the conversation invariant: the queue, pending ids, cursors and identities agree with the frames seen so far |
| Conversation.NoticeStep | scripts/autonomy/app_server_adapter.py:154-208 | An accepted notification keeps the conversation invariant and leaves the dialogue as it is (nothing queued, answered or learned), except for the one disabled snapshot, which queues the first catalog request |
| FrameRules.EqualityIsExact | scripts/autonomy/app_server_adapter.py:136-142 | Two JSON values are equal for the session exactly when they are the same once booleans and integers count as numbers |
| FrameRules.WritingIsExact | scripts/autonomy/app_server_adapter.py:129-143 | A client frame is taken exactly when it equals the first frame that the session dictates, whose contents are written out; a request then waits for its answer |
| FrameRules.AnswerIsExact | scripts/autonomy/app_server_adapter.py:145-153 | A response is considered exactly when it answers a waiting request without error and with an object; then the rule of its kind decides |
| FrameRules.PageIsExact | scripts/autonomy/app_server_adapter.py:227-245 | A catalog page is taken exactly within its bounds, with distinct named models, and either a new cursor or, at the end, exactly one model gpt-6.1-sol with effort medium and tier priority |
| FrameRules.ThreadIsExact | scripts/autonomy/app_server_adapter.py:246-253 | The answer to thread/start is taken exactly when the seven resolved settings are those of the profile, the thread has an id and everything seen before agrees with it |
| FrameRules.NoticeIsExact | scripts/autonomy/app_server_adapter.py:154-208 | A notification is taken exactly when it is of a known kind, complete in its fields, in time, and of this thread and turn; what the session learns from it is written out |
| FrameRules.FinishIsExact | scripts/autonomy/app_server_adapter.py:261-282 | A session finishes exactly when everything was said once and in agreement and the one answer beyond doubt is JSON of this version, agent, commit and run |
| Verdicts.EveryNoticeInScope | scripts/autonomy/app_server_adapter.py:176-215 | Every notification of an accepted session, early ones included, names the thread and turn that the responses later named; item and turn notifications name both |
| Verdicts.NothingAfterCompletion | scripts/autonomy/app_server_adapter.py:160-163 | After a turn/completed no item or turn notification is accepted |
| Verdicts.OneCompletion | scripts/autonomy/app_server_adapter.py:186-190 | An accepted sequence contains at most one turn/completed, and the session holds that turn |
| Verdicts.FinishedHasCompletion | scripts/autonomy/app_server_adapter.py:261-282 | A session whose finish succeeds has accepted a turn/completed, and only that one |
| Verdicts.NothingBeforeTurnRequest | scripts/autonomy/app_server_adapter.py:160-162 | An item or turn notification is accepted only when the last frame the client wrote is a turn/start request |
| Verdicts.FinalAnswerExact | scripts/autonomy/app_server_adapter.py:266-270 | An answer is selected exactly when one is beyond doubt: the only final one, or the only one at all and without a phase; and it is that one |
| Verdicts.LateNotice | scripts/autonomy/app_server_adapter.py:154-208 | After completion an accepted notification can only add a scope or a thread event, both in scope |
| Verdicts.FinishIsFinal | scripts/autonomy/app_server_adapter.py:261-282 | A frame accepted after finish has succeeded leaves the result of finish unchanged |
| Verdicts.VerdictStands | scripts/autonomy/app_server_adapter.py:540-549 | From the first moment finish succeeds, it succeeds after every further accepted frame with the same thread, turn and response text |
| Verdicts.ResponseTextWasSent | scripts/autonomy/app_server_adapter.py:266-282 | The response text is the text of the one completed agent message that is beyond doubt the answer, sent by the server in this session |
| Resolutions.FinishedIsConfirmed | scripts/autonomy/app_server_adapter.py:220-282 | Read off the frames of any finished session: the greeting named the configured home, the pages together hold exactly one model of the profile, the thread was resolved with the seven settings, all four kinds of request were sent with the contents due, and completion, items and answer agree |
| Sessions.Session.Feed | scripts/autonomy/app_server_adapter.py:136-208 | Updating the fields in place accepts a frame exactly when the specification does and leaves exactly the specified state |
| Sessions.Session.Response | scripts/autonomy/app_server_adapter.py:220-259 | The same for the answer to one request, with every check on the result and the request that follows from it |
| Sessions.Session.TakePage | scripts/autonomy/app_server_adapter.py:227-245 | One catalog page: bounds, distinct model ids, a cursor never seen before or the one model with its effort and tier |
| Sessions.Session.Finish | scripts/autonomy/app_server_adapter.py:261-282 | The verdict of the specification; the completed turn's items are compared one by one with the recorded answers |
| Adapter.DivisionIsUnique | scripts/autonomy/app_server_adapter.py:573-579 | Bytes split into complete lines and a newline-free rest in one way only, so the lines do not depend on how the bytes arrived |
| Adapter.ReplayProtocol | scripts/autonomy/app_server_adapter.py:285-296 | Feeding the records one by one to a fresh session and stopping at the first refusal gives the verdict of the whole frame sequence |
| Adapter.ReplayIsExact | scripts/autonomy/app_server_adapter.py:285-296 | Records replay to a verdict exactly when there are at most 10,000, each numbered in turn and one line of up to a mebibyte of JSON, and the session fed with all of them finishes so |
| Adapter.LiveRun.Read | scripts/autonomy/app_server_adapter.py:564-586 | For every chunk, the recorded server lines followed by the buffer are the captured bytes, output stays within its bound, and an earlier verdict still stands |
| Adapter.LiveRun.NoteAndFeed | scripts/autonomy/app_server_adapter.py:458-464 | A frame is recorded before it is fed, and the records always lead a fresh session to the live one's state |
| Adapter.LiveRun.Exit | scripts/autonomy/app_server_adapter.py:546-549 | A completed run has recorded exactly the lines of its stdout, and its capture, replayed from nothing, passes every check and gives the run's own verdict |
| Adapter.LiveRun.Conduct | scripts/autonomy/app_server_adapter.py:531-586 | The main loop over any passes of reading, writing and draining: when it returns a verdict, the recorded server lines are exactly the lines of all that the provider wrote up to the pass that ended it, and the capture, replayed from nothing, passes every check and gives that verdict; and when it returns none, one of the listed reasons holds, no pass before having been cut short |
| Replays.AcceptedReplay | scripts/autonomy/app_server_adapter.py:285-296 | Every record sequence that replay accepts is one whole session: the client frames are the script its responses determine over a catalog read to its end, every notification speaks for the verdict's own thread and turn, exactly one turn/completed is in it with no item or turn notification after it, the response text is that of the one agent message that is beyond doubt the answer; and its responses confirm, field by field, the configured home, the one model of the profile and the seven resolved settings |
| Replays.ReplayStands | scripts/autonomy/app_server_adapter.py:285-296 | If some first records have a verdict, all the records have the same one or are refused |
| SmallestSession.SomeSessionIsAccepted | scripts/autonomy/app_server_adapter.py:136-296 | Some recording is accepted, under some reading of its bytes, exactly when the invocation context names a Codex home |
| SmallestSession.IsAccepted | scripts/autonomy/app_server_adapter.py:136-296 | One concrete recording of twelve frames is accepted for every such context, with this verdict |
| ReleaseSafety.MergesAreSeparated | scripts/autonomy/release_controller.py:474-558 | Over any sequence of runs, replies, crashes and outside edits, no merge is issued while an earlier one is outstanding, and merges are at most one more than the 'blocked' operation records written |
| ReleaseSafety.SeparatedIsBounded | scripts/autonomy/release_controller.py:540-558 | In a log where each further merge waits for a 'blocked' record, merges are bounded by those records plus the one outstanding |
| ReleaseSafety.MergeIsRecordedFirst | scripts/autonomy/release_controller.py:540-548 | The step that issues a merge belongs to a normal executing run and finds no receipt and its own merge_requested record; writing that record was the step of this very run directly before it |
| ReleaseSafety.StoredReceiptIsGenuine | scripts/autonomy/release_controller.py:205-212 | A stored receipt was made from a PR that was read as MERGED with the exact number, head and branches |
| ReleaseSafety.ReceiptIsNeverReplaced | scripts/autonomy/release_controller.py:505-524 | Across all later runs and crashes a stored receipt stays the same |
| ReleaseSafety.OutcomeIsHonest | scripts/autonomy/release_controller.py:409-427 | An outcome with a confirmed receipt is never 'blocked', and a merged or repaired one has stored that receipt |
| ReleaseStories.EveryRunTellsItsStory | scripts/autonomy/release_controller.py:205-229 | In every history, what a run has done since it began is, entry by entry, a story of its kind: a normal run saw an open, mergeable, non-draft PR of the candidate with every check a success before its first edit and again right before it recorded and issued the merge, and stored a receipt only from a PR read as merged; a repair began from such a PR; and the outcome is the one of the story |
| ReleaseDecisions.BeginDecides | scripts/autonomy/release_controller.py:444-495 | What an invocation begins with: a job whose plan, spelled out, was rebuilt and whose permissions are there; then the receipt and the operation record decide |
| ReleaseDecisions.PrDecides | scripts/autonomy/release_controller.py:205-229 | The first reading lets a normal run go on exactly for a ready PR and a repair exactly for a merged one, field by field |
| ReleaseDecisions.TrackingDecides | scripts/autonomy/release_controller.py:357-364 | A normal run goes on exactly when the item has a status other than Done and carries the evidence text; then only an executing run begins to edit |
| ReleaseDecisions.RepairDecides | scripts/autonomy/release_controller.py:496-530 | A repair stops at another receipt, and otherwise makes exactly the updates whose fields do not show their values |
| ReleaseDecisions.RecheckDecides | scripts/autonomy/release_controller.py:535-541 | Before the merge an executing run goes on to record and issue it exactly when the PR read again is ready, field by field |
| ReleaseDecisions.ConfirmDecides | scripts/autonomy/release_controller.py:548-561 | After the request an open candidate is recorded as pending or blocked, a merged one gives its receipt and the last update, anything else blocks |
| ReleaseDecisions.NormalRunCompletes | scripts/autonomy/release_controller.py:430-570 | A normal run that is answered well ends merged, with the receipt of what it read, the item done with the evidence text, and the merge recorded |
| ReleaseDecisions.OpenMergeIsPending | scripts/autonomy/release_controller.py:543-558 | And when the PR is still open after the request: pending if the request was accepted and blocked if it failed, in the report and in the record |
| ReleaseTracking.SuccessIsTracked | scripts/autonomy/release_controller.py:523-570 | If nobody else edits, a 'merged' or 'tracking_repaired' outcome leaves the item Done with the plan's evidence text |
| ReleaseTracking.CommandsAreThePlans | scripts/autonomy/release_controller.py:453-458 | The commands a run issued are a beginning of the plan that was rebuilt, and all of it when a normal run reports success; a repair issued some of its plan's two updates, in order |
| ReleaseRecovery.ReadOnlyRunChangesNothing | scripts/autonomy/release_controller.py:521-522 | A run without execute changes no file and no field, whatever it is answered |
| ReleaseRecovery.PendingIsNeverRequestedAgain | scripts/autonomy/release_controller.py:474-495 | A normal run begun while a receipt is stored, or while the operation record says merge_requested or merge_pending, issues no command at all, whatever it is answered, wherever it stops and whatever others edit |
| ReleaseRecovery.SecondRepairEditsNothing | scripts/autonomy/release_controller.py:523-530 | A repair of an item that is already tracked issues no command, however it goes and wherever it stops |
| ReleaseRecovery.RepairEditsWhatIsNeeded | scripts/autonomy/release_controller.py:523-570 | A repair that is left alone and reports success has issued exactly the updates that the fields it began on need, in order |
| ReleaseRecovery.RepairCompletes | scripts/autonomy/release_controller.py:496-570 | After any interrupted run, a repair that is answered well ends repaired, tracked and recorded within seven steps exactly when no other receipt is stored; otherwise it is blocked and the stored receipt stays |
| ReleaseControllers.Controller.Execute | scripts/autonomy/release_controller.py:430-576 | The procedure with its early exits leaves the files, the project, its own record of what it read, issued and wrote, and the outcome as the step machine leaves them, also when the process dies after any reply; so an invocation adds to a history of the machine |
| ReleaseControllers.Controller.ItsMergesAreSeparated | scripts/autonomy/release_controller.py:474-558 | However often the procedure is invoked, wherever it dies and whatever others edit in between, it issues no merge while an earlier one is outstanding, and at most one more than it has recorded as blocked |
| ReleaseControllers.Controller.RecordMerge | scripts/autonomy/release_controller.py:562-570 | The receipt is saved before any further edit, the edits go out in order until one fails, and the end is recorded last |
| ReleaseControllers.Controller.ConfirmMerge | scripts/autonomy/release_controller.py:543-565 | After the merge request only a read decides: pending, blocked, or the receipt of the confirmed merge |
| ReleaseProjectItem.ProjectItem | scripts/autonomy/release_controller.py:243-314 | An item is returned exactly when there is a complete walk of at most 100 pages without repeated cursors or items, it shows the sought item once as the expected issue (kind, number, repository, address and a complete list of values, field by field), and its two required values are of the right types and unambiguous; they are what is returned |
| ReleaseProjectItem.WalkIsUnique | scripts/autonomy/release_controller.py:244-284 | For one behaviour of the remote there is at most one complete walk |
| ReleaseProjectItem.RequiredValues | scripts/autonomy/release_controller.py:293-314 | The two required fields are returned exactly when none has a wrong type or two values |
| JsonPointer.TwoReplacementsDecode | scripts/autonomy/runner.py:1629-1631 | Replacing ~1 and then ~0 is the single-pass decoding of section 4 of RFC 6901, on every token |
| JsonPointer.EscapeRoundTrip | scripts/autonomy/runner.py:1629-1631 | Decoding an escaped key gives the key back, and the escaped key holds no slash and no stray tilde |
| JsonPointer.Pointer | scripts/autonomy/runner.py:1625-1640 | The loop over the tokens computes the evaluation that the two theorems below are about |
| JsonPointer.PointerFindsEveryNode | scripts/autonomy/runner.py:1625-1640 | For every JSON tree and nonempty path to a node, the escaped pointer evaluates to that node |
| JsonPointer.PointerIsExact | scripts/autonomy/runner.py:1625-1640 | A text evaluates to a node if and only if it spells a nonempty path to that node |
| Provenance.Define | scripts/autonomy/runner.py:1713-1732 | The first usable record of each fact id defines it; there is no finding exactly when every record is usable and new |
| Provenance.Replay | scripts/autonomy/runner.py:1752-1789 | A fact is covered exactly by a claim equal to what deriving it again gives |
| Provenance.MeasureProvenance | scripts/autonomy/runner.py:1691-1821 | Covered and uncovered ids partition the defined ones in ascending order, covered are exactly those with a claim that holds, and there is no finding exactly when population, report, identity and every claim are right |
| Provenance.MeasurementIsUnique | scripts/autonomy/runner.py:1790-1821 | Inputs and claims determine the measurement |
| Provenance.ProvenIsExact | scripts/autonomy/runner.py:1752-1789 | A claim holds exactly when both references of its fact are retained and parse, both pointers lead to nodes of equal canonical bytes, and the claim states the id, the two file hashes, the two pointers and the hash of the value |
| Provenance.MeasurementMeans | scripts/autonomy/runner.py:1790-1821 | Eligible are the facts that a usable record defines first, covered those with such a claim in a well-formed report, uncovered the rest, and the ratio is theirs |
| Provenance.SoundMeans | scripts/autonomy/runner.py:1691-1821 | There is no finding exactly when population and report are well formed, the report is about this commit, population and scope, all its claims hold and its three lists are the measured ones |
| Provenance.RatioIsOne | scripts/autonomy/runner.py:1819 | The ratio is 1 exactly when something is eligible and nothing is uncovered, and otherwise lies between 0 and 1 |
| Provenance.CoverageIsExact | scripts/autonomy/runner.py:1733-1809 | With no finding the covered facts are exactly the claimed ones, every claim restates equal values that source and extraction retain at its pointers, and the ratio is 1 exactly when every fact of the population has a claim |
| Evidence.CalculateCoverage | scripts/autonomy/orchestrator.py:178-222 | There is no error exactly when slots are required and every record is valid with an id and a reference of its own; then exactly the filled required slots are verified |
| Evidence.AggregateGateReports | scripts/autonomy/orchestrator.py:129-157 | One report for each of the eight gates, in order |
| Evidence.PassedCommands | scripts/autonomy/orchestrator.py:111-143 | The report of a passed gate lists only completed commands exactly when the run has just one of the two command fields or the reported one is clean: judging and reporting read the two in opposite order |
| Evidence.FailureIsReportedAsPassed | scripts/autonomy/orchestrator.py:111-143 | A concrete run whose passed report lists a failed command |
| Evidence.IndexReports | scripts/autonomy/validate_run.py:122-139 | No failure exactly when every report names a gate and no gate is named twice; then each gate leads to its report |
| Evidence.Evaluate | scripts/autonomy/validate_run.py:68-211 | No failure exactly when identity, evidence, gate decisions, gate reports, finding counts and both ratios meet the policy |
| EvidenceRules.PolicyIsExact | scripts/autonomy/validate_run.py:68-211 | The evaluator's conditions on the fields of the manifest: full commit ids, listed evidence present with its digest in either case, every required gate decided and reported as pass about this commit with evidence, and no more critical and high findings than the policy allows, counted |
| EvidenceRules.ReportsAreExact | scripts/autonomy/orchestrator.py:111-157 | What a gate's report says of its run, field by field: pass exactly when run and response passed about this commit, blocked otherwise, and as evidence exactly the provider responses in their order |
| Bundles.MeasureChecks | scripts/autonomy/orchestrator.py:236-268 | The loop over the checks ends with a measurement exactly when every measured check retains one report that measures clean and the last source and the last quality report measure the same |
| Bundles.ValidateEvidenceBundle | scripts/autonomy/orchestrator.py:583-640 | Passed exactly when coverage is complete, each frozen input has a copy of its own hash, the reports in the slots that the checks name measure clean and alike, the retained protocol of each of the ten agents replays over its retained output to its retained response, gate reports and gate decisions are what the runs give, the declared metrics, scope and measurements are those of the replay, the evaluator passes, and the remaining checks (one boolean) do |
| EvidenceRules.SlotsAreExact | scripts/autonomy/orchestrator.py:160-175 | The required slots: the frozen files, the listed responses, four for each of the ten agents, the candidate's changes, and three and the outputs for each check |
| EvidenceRules.BundleIsExact | scripts/autonomy/orchestrator.py:583-640 | A bundle passes exactly when it qualifies, with every rule spelled out on its records: task and agents, described artifacts and filled slots, copies, the two measurements, the ten replays, what it declares, and the policy |
| Bundles.GateOfPassedBundle | scripts/autonomy/validate_run.py:141-155 | In a passed bundle a required gate's own run passed about exactly the implementation commit |
| Bundles.PassedBundleIsSound | scripts/autonomy/orchestrator.py:593-640 | What passing means: all eight gates passed about this commit as observed and as reported, every required slot is filled by a file with matching hash under distinct ids and references, each frozen input has a copy of its own hash, both retained reports prove every trusted fact again, and every agent's retained protocol replays to its retained response |
| Bundles.RetainedResponseWasSent | scripts/autonomy/orchestrator.py:457-513 | The retained protocol of an agent, replayed in the context that the frozen inputs give, is one whole session; the retained response is the answer of that session, and its server lines are the agent's retained output |
| CaptureStream.Stream | scripts/dev/bank_canary_transport.py:74-102 | Stored bytes are the concatenation of the chunks read and never exceed the allowance; complete exactly when the declared length was stored, or, without one, when the end was seen before the allowance ran out |
| Canary.ValidateResources | scripts/dev/bank_canary_capture.py:83-101 | The loop accepts exactly the resource lists whose items are well formed (texts, size, source revision, hash or attestation) and consistent where a reference repeats, with exactly the enrolled body, at most four required assets and one required labor resource, and an absence declared for exactly the roles that are missing |
| Canary.RequiredAreAtMostSix | scripts/dev/bank_canary_capture.py:96-101 | An accepted list has between one and six required references, the body among them |
| CanaryRules.EnrollmentsAreExact | scripts/dev/bank_canary_capture.py:38-101 | The resource rules accept exactly the enrollments spelled out on the fields of their resources and the characters of their texts |
| CanaryRuns.CanaryRun.OpenRequest | scripts/dev/bank_canary_capture.py:249-265 | A request is admitted before the deadline and within the budgets, counted once, starts at least a second after the one before, and adds at most 20,000,000 bytes; a request for another URL is refused uncounted; when it goes through, its answer was captured whole, and when it does not, there is one of the listed reasons |
| CanaryRuns.CanaryRun.Transfer | scripts/dev/bank_canary_capture.py:256-268 | Counted before it is sent; bytes on disk never pass 100,000,000 even when taking the capture into the inventory fails; it goes through only with a whole answer and fails only for trouble outside or for the code of how the answer broke off |
| CanaryRuns.CanaryRun.Exchange | scripts/dev/bank_canary_capture.py:269-274 | A client call opens the request of its step at most once; the label fallback of the second bank is refused without touching the guard |
| CanaryRuns.CanaryRun.Pages | scripts/dev/bank_canary_capture.py:285-306 | At most ten calls: the first without a cursor, each later one with the nonempty cursor of the page before it, none twice; when it succeeds, every page was validated and the last one says that it is the last and names no next one; when it fails without trouble outside, the time, the bytes, a broken answer or the page itself is why |
| CanaryRuns.CanaryRun.ReadResources | scripts/dev/bank_canary_capture.py:326-342 | When it succeeds, the calls are for the required resources, one each and in order, and the coverage is the required list itself |
| CanaryRuns.CanaryRun.Close | scripts/dev/bank_canary_capture.py:344-351 | The row gets exactly the code that its failure has in the table (CANCELLED for an interrupt, OUTPUT_FAILURE for an output error, TRANSPORT for anything else, its own code or text if that is a stop code and VALIDATION if not), is incomplete exactly for the nine codes, and passes on exactly the five that concern both banks, unless logging it fails |
| CanaryRuns.CanaryRun.RunBank | scripts/dev/bank_canary_capture.py:234-351 | Whatever happens, the row leaves pending with sound counters and the request guard does not fire; a complete row covers exactly what was required, nothing went wrong outside, and its calls were the capabilities, four whole catalog walks, the vehicle, its whole article list and each required resource once, all validated, and no others; any other row ended by a recorded failure, closed with its code, for which there is a reason: trouble outside, the deadline, the bytes, an answer that broke off, or a page that is refused |
| CanaryRuns.RequiredInOrder | scripts/dev/bank_canary_capture.py:236 | The required references, each once |
| CanaryRuns.RunCapture | scripts/dev/bank_canary_capture.py:219-356 | An enrollment is refused or both banks run: at most 58 requests a bank and 116 in all, starts a second apart across both banks, each admitted within 900 seconds of its bank's start and 1790 of the run's, at most 20,000,000 bytes on disk for a request and 100,000,000 for a bank, the request guard never fires, both summary lines are valid, a complete bank made exactly the calls of its finite graph; a row says how its bank ended; and when the first was ended by what concerns both, an interrupt above all, the second was not begun and is withdrawn with all counters 0 |
| Slugs.SlugVehicle | apps/api-go/vehicle_identity.go:303-317 | The loop with its flag computes the slug, which is also what the regular expression of the SQL computes |
| Slugs.SlugIsRegex | apps/api-go/catalog_store.go:537 | Joining the lower-case words by dashes is replacing each maximal non-alphanumeric run by a dash and trimming dashes |
| Slugs.SlugKeepsWords | apps/api-go/vehicle_identity.go:303-317 | A slug has the words of its text and is its own slug; it is empty exactly when the text has no word |
| Slugs.SameSlugIsSameWords | apps/api-go/catalog_store.go:447-449 | Two texts have the same slug exactly when they have the same words |
| Slugs.RunsOfCoarser | apps/api-go/catalog_store.go:468-470 | Splitting by white space and joining again leaves the finer runs as they are |
| Catalogs.MakeLabelKeepsSlug | apps/api-go/catalog_store.go:451-466 | Relabelling a make, the four special spellings included, does not change its slug |
| Catalogs.ModelLabelKeepsSlug | apps/api-go/catalog_store.go:468-470 | Relabelling a model does not change its slug |
| Catalogs.PathValueKeepsSlug | apps/api-go/catalog_http.go:402-404 | Turning the dashes of a path value into spaces does not change its slug |
| Catalogs.IdSelectsItsSlug | apps/api-go/catalog_store.go:445-449 | A nonempty id, as emitted or as received in a path, matches exactly the names that have it as their slug; an empty one only the empty name |
| CatalogRules.MatchesAreExact | apps/api-go/catalog_store.go:310-339 | A record is listed exactly for its year, for selectors that equal its names up to case or have their words, and for its region up to case or none |
| CatalogRules.LabelsAreExact | apps/api-go/catalog_store.go:451-466 | Exactly the four makes, however they are cased, spaced or dashed, have their own label; any other keeps its trimmed text |
| CatalogRules.IdSpellsTheRecord | apps/api-go/catalog_store.go:437-439 | The words of a completed id are those of the make, of the model, the digits of the year and those of the trim |
| CatalogRules.IdsTellApart | apps/api-go/catalog_store.go:437-439 | Records that differ in one of make, model, year and trim share an id exactly when that one has the same words, or is the same year |
| CatalogRules.DividedOtherwise | apps/api-go/catalog_store.go:245-255 | Two concrete records that share an id because their make and model divide the same words differently |
| Catalogs.Store.PutConfiguration | apps/api-go/catalog_store.go:245-255 | The record is kept under its own id, completed when it has none, and no other record changes |
| Catalogs.Store.Makes | apps/api-go/catalog_store.go:292-308 | For any iteration order: in ascending order of name, one entry for each slug of a matching record and none besides |
| Catalogs.Store.Models | apps/api-go/catalog_store.go:310-326 | The same for the models of a make |
| Catalogs.Store.Configurations | apps/api-go/catalog_store.go:328-339 | Exactly the matching records, in ascending order of id |
| Catalogs.CascadeReturnsTheRecord | apps/api-go/catalog_store.go:292-339 | A record's make id is listed; sent back it lists the record's model id; and both sent back, with or without the path's dashes, return the record exactly when its names have slugs or are empty |
| Catalogs.DashIsNotReturned | apps/api-go/catalog_store.go:292-339 | A concrete record, of make "-", that the cascade does not return |
| Catalogs.CascadeReturnsOnlyItsIds | apps/api-go/catalog_store.go:328-339 | With nonempty ids exactly the records of that year and region whose slugs they are come back |
| Identities.NormalizeRows | apps/api-go/vehicle_identity.go:163-249 | The batch is refused exactly when a row is invalid; otherwise keys come out strictly ascending, one record for each key, with what its rows add up to, its configurations in ascending order of key |
| IdentityRules.ValidRowsAreExact | apps/api-go/vehicle_identity.go:170-173 | A row is taken exactly when its year is from 1886 to 2100 and its make and model have a character that is not white |
| IdentityKeys.KeySpellsTheRow | apps/api-go/vehicle_identity.go:182-186 | The words of a key are those of the make, of the model, the year, and those of the region |
| IdentityKeys.KeysAreTheirWords | apps/api-go/vehicle_identity.go:182-186 | Rows whose names have words share a key exactly when these lists of words are equal |
| IdentityKeys.YearsAreApart | apps/api-go/vehicle_identity.go:182-186 | Rows alike in make, model and region share a key exactly when their years are equal |
| IdentityKeys.DividedOtherwise | apps/api-go/vehicle_identity.go:182-186 | Two concrete rows of different years that share a key |
| IdentityKeys.YearsAreExact | apps/api-go/vehicle_identity.go:251-275 | A year of two digits falls into the hundred years from 1931, any other integer stands for itself, and no other value is a year |
| IdentityKeys.TextYearsAreExact | apps/api-go/vehicle_identity.go:251-275 | A text counts as the 64-bit number that it spells, with a sign and space around it, and otherwise as no year |
| Identities.AddRow | apps/api-go/vehicle_identity.go:184-205 | One row meets its family as specified, for any state of the table |
| Identities.FamilyIsItsRows | apps/api-go/vehicle_identity.go:182-205 | A family is named by its first row and states the first vehicle id, drivetrain and body style its own rows state, whatever stands between them |
| Identities.ConflictsAreDisputes | apps/api-go/vehicle_identity.go:191-205 | Comparing each row with its family only finds a conflict exactly when two rows of the family disagree |
| Identities.StatusIsExact | apps/api-go/vehicle_identity.go:241-245 | A record needs review exactly when two rows of its family disagree on a stated drivetrain, or a later row states another body style than an earlier one |
| Identities.ConfigurationsAreExact | apps/api-go/vehicle_identity.go:206-218 | A family has one configuration for each configuration key among its rows that contradict nothing before them, as the first such row states it |
| IdentityRules.ConfigKeySpellsTheRow | apps/api-go/vehicle_identity.go:209-215 | The words of a configuration key: those of the row's key, then of its trim and of its displacement, each announced |
| IdentityRules.TrimsAreApart | apps/api-go/vehicle_identity.go:209-215 | Rows of one family and displacement share a configuration exactly when both have no trim or both have its words |
| IdentityRules.EnginesAreApart | apps/api-go/vehicle_identity.go:209-215 | Rows of one family and trim share one exactly when they are of the same displacement or both of none |
| IdentityRules.ListedAsGiven | apps/api-go/vehicle_identity.go:216-240 | A record lists one configuration for each key of its accepted rows, as the first of them gives it, with the drivetrain of the record |
| IdentityRules.ConflictsAreListed | apps/api-go/vehicle_identity.go:191-205 | The conflicts of a family are, row by row, the stated drivetrains and body styles that contradict what the rows before state first |
| IdentityLaws.RecordsKeepTheirOrder | apps/api-go/vehicle_identity.go:223-247 | Permuting the rows gives the same keys in the same order |
| IdentityLaws.VerdictIgnoresOrder | apps/api-go/vehicle_identity.go:191-205 | Permuting the rows keeps a family's verdict if it holds a symmetric disagreement or does not mix blank and stated body styles |
| IdentityLaws.VerdictNeedsOrder | apps/api-go/vehicle_identity.go:201-205 | And only then: in every other case one order resolves the family and another does not |
| IdentityLaws.OrderDependentBatch | apps/api-go/vehicle_identity.go:201-205 | Two concrete rows of one family that need review in one order and not in the other |
| IdentityLaws.DrivetrainStability | apps/api-go/vehicle_identity.go:276-288 | Normalising a drivetrain again changes nothing exactly when no white space stands around the core of the text, which is what is left when the separators around the trimmed text are gone |
| IdentityRules.DriveIsExact | apps/api-go/vehicle_identity.go:276-288 | A drivetrain is what is left of the trimmed text without spaces, dashes and underscores, in capitals, but for 4X2 and 4X4 |
| IdentityRules.TitleWordsAreExact | apps/api-go/vehicle_identity.go:289-302 | Title casing gives the words of the text in order, one space apart, each with nothing small in front and no capital after |
| IdentityLaws.UnstableDrivetrain | apps/api-go/vehicle_identity.go:276-288 | A concrete drivetrain that changes when normalised again |
| IdentityLaws.TitleWordsTwice | apps/api-go/vehicle_identity.go:289-302 | Title casing words is idempotent |
| IdentityLaws.CanonicalIsStable | apps/api-go/vehicle_identity.go:221 | A stored row of a valid row is valid and belongs to the same family |
| IdentityRules.CanonicalKeepsTheRest | apps/api-go/vehicle_identity.go:221 | A stored row keeps its configuration key, its ids, its trimmed trim and its displacement |
| IdentityLaws.RenormalisingFindsDriveDisputes | apps/api-go/vehicle_identity.go:148-221 | For all valid rows, normalising stored rows finds the same families, and what it finds disputed are drivetrain disputes that were there before |
| IdentityLaws.RenormalisingKeepsDriveDisputes | apps/api-go/vehicle_identity.go:148-221 | Where every drivetrain is stable, normalising stored rows finds exactly the drivetrain disputes that were there before |
| SurrogateScan.PurchaseUnicodeValid | apps/api-go/purchase_config.go:70-109 | On every JSON text the scan stays in bounds and accepts exactly when every high surrogate escape is directly followed by a low one and no other low one stands in a string |
| SurrogateScan.PassUnit | apps/api-go/purchase_config.go:90-107 | One escape, and the low half that has to follow it, are read without leaving the text, or rightly refused |

## Left out

- Real processes, signals, selectors, pipes, partial writes and timeouts of `run_app_server`: the bytes and frames they deliver are what is modelled. The interrupt frame and the draining after a failure are left out; they only add records to a run that has already failed.
- JSON text, UTF-8 and hashing: open functions (`Codec`, `Digests`) or parsed values. JSON objects are maps, so duplicate keys are outside the model.
- Characters are Unicode scalar values, so the rejection of text with lone surrogates by an encoder is not modelled outside `SurrogateScan`.
- Sessions.Session.Feed: does not say what the fields are after a refused frame; the caller drops the session then.
- Adapter.LiveRun.Conduct: a pass that is cut short stands for a signal, a timeout or the end of the grace after completion; the model does not say when these happen.
- Adapter.LiveRun.Exit: the header of a capture is accepted by an open check, because its fields are the invocation context and not the session; retained records have exactly their three fields.
- The answers of a session are kept in order of completion instead of a dictionary; completed item ids are distinct, so both hold the same items.
- Release: planning record, issue body, labels and required checks of the live discovery are one step that succeeds or fails, and `ProjectItem` is proved on its own. Evidence replay and policy verdicts enter a job as booleans. `release-events.jsonl`, the messages of failures and files that do not parse are left out. A branch or identifier is any printable text.
- Release: two jobs at once on one state root. The code takes no lock and promises nothing for that case.
- ReleaseRecovery.RepairCompletes: assumes that every step is answered well; the other runs are covered by the safety theorems.
- Bundles.ValidateEvidenceBundle: the checks on the verification contract, the execution profile, the change set, the retained commands, the findings and the fields of each agent's invocation and response are one boolean that can only add a failure. How retained bytes become a report, a capture or an invocation context is open (`Reader`).
- Evidence: artifact files are a map from references to bytes; path escapes, links and file types are not modelled. Legacy records without typed artifacts are left out.
- Ratios are real numbers where the source divides floats; only the comparison with one is used.
- CanaryRuns.CanaryRun.OpenRequest: an operator's interruption can arrive at every foreign call, but not between two adjacent updates of counters, and not inside the handler or between the banks, where the source does not catch it.
- Canary: of an enrollment the resource rules are modelled; dates, origins, selectors, mappings and content rules are left out, and the set of fields of a JSON object is taken as right. Whether a page is identified, timely or secret is part of the page; what else pages and payloads hold is decided freely at each check, and counted as trouble outside when it is refused. Decoded copies of payloads are not counted by the source's byte budget, and not here.
- Vehicle identity: the two caches around the function are left out. The text of an engine displacement, which is part of a configuration key, is a field of the row.
- Strings of the Go code are treated as ASCII; case folding outside ASCII is not modelled. A float year that is not a number or infinite is left out.
- Catalog: years, articles, scope completeness and the SQL store are left out, except that the store's slug expression is `RegexSlug`. The map's iteration order is arbitrary in the model as in the source.
- SurrogateScan.PurchaseUnicodeValid: texts are those whose strings are well formed, of which JSON texts are a part; the two library checks before the scan are a boolean. Duplicate keys (`purchaseJSONValue`) are left out.
- HTTP handlers, commerce projections, review queues, authentication, secret redaction, path patterns, smoke scripts and migrations: plumbing, or only easy claims.
