/** The parts of an evidence bundle: filled artifact slots, gate reports from the runs, and the policy evaluator. */
module Evidence {
  import opened Wrappers
  import opened Texts
  import opened Provenance

  const MAX_ARTIFACT := 16 * 1024 * 1024

  const KINDS: set<string> := {
    "command-result", "stdout", "stderr", "provider-response", "test-result",
    "provenance-population", "provenance-result", "trusted-input", "change-set"
  }

  const GATES: seq<string> := [
    "deterministic_ci", "contract_compatibility", "schema_integrity", "source_provenance",
    "data_quality", "security", "reliability", "independent_review"
  ]

  /** An artifact record whose identity is two texts; `wellShaped` says whether its other fields are. */
  datatype Artifact = Artifact(id: string, ref: string, wellShaped: bool, kind: string, sha: string, size: int,
                               subjectSha: string, checkId: Option<string>)

  /** The retained files that can be read back, by reference. */
  type Store = map<string, Bytes>

  // ---------------------------------------------------------------- artifact coverage

  predicate ValidArtifact(sha: Bytes -> string, store: Store, a: Artifact) {
    && a.wellShaped && IsId(a.id) && a.kind in KINDS && IsHex(a.sha, 64) && IsHex(a.subjectSha, 40)
    && 0 <= a.size <= MAX_ARTIFACT
    && (a.checkId.Some? ==> IsId(a.checkId.value))
    && a.ref in store && |store[a.ref]| == a.size && sha(store[a.ref]) == a.sha
  }

  /** Every record is an artifact, valid against the files, and no id or reference is used twice. */
  ghost predicate Filed(sha: Bytes -> string, store: Store, artifacts: seq<Option<Artifact>>) {
    && (forall i | 0 <= i < |artifacts| :: artifacts[i].Some? && ValidArtifact(sha, store, artifacts[i].value))
    && (forall i, j | 0 <= i < j < |artifacts| && artifacts[i].Some? && artifacts[j].Some? ::
          artifacts[i].value.id != artifacts[j].value.id && artifacts[i].value.ref != artifacts[j].value.ref)
  }

  ghost predicate Fills(sha: Bytes -> string, store: Store, artifacts: seq<Option<Artifact>>, id: string) {
    exists i | 0 <= i < |artifacts| ::
      artifacts[i].Some? && artifacts[i].value.id == id && ValidArtifact(sha, store, artifacts[i].value)
  }

  /** `calculate_coverage`: the verified slots, and whether any error was recorded. */
  method CalculateCoverage(sha: Bytes -> string, store: Store, required: set<string>, artifacts: seq<Option<Artifact>>)
      returns (verified: set<string>, clean: bool)
    ensures verified <= required
    ensures forall id | id in verified :: Fills(sha, store, artifacts, id)
    ensures clean <==> required != {} && Filed(sha, store, artifacts)
    ensures clean ==> forall id | id in required :: id in verified <==> Fills(sha, store, artifacts, id)
  {
    hide ValidArtifact, Filed, Fills;
    NothingFiled(sha, store, artifacts);
    verified, clean := {}, required != {};
    var seen, refs := {}, {};
    for i := 0 to |artifacts|
      invariant verified <= required
      invariant forall id | id in verified :: Fills(sha, store, artifacts, id)
      invariant forall id | id in seen :: exists j | 0 <= j < i :: artifacts[j].Some? && artifacts[j].value.id == id
      invariant forall ref | ref in refs :: exists j | 0 <= j < i :: artifacts[j].Some? && artifacts[j].value.ref == ref
      invariant clean <==> required != {} && Filed(sha, store, artifacts[..i])
      invariant clean ==> forall j | 0 <= j < i ::
                  artifacts[j].Some? && artifacts[j].value.id in seen && artifacts[j].value.ref in refs
                  && (artifacts[j].value.id in required ==> artifacts[j].value.id in verified)
    {
      FiledUpTo(sha, store, artifacts, i);
      FillsItsSlot(sha, store, artifacts, i);
      var entry := artifacts[i];
      if entry.None? {
        clean := false;
      } else if entry.value.id in seen || entry.value.ref in refs {
        clean := false;
        verified := verified - {entry.value.id};
      } else {
        seen, refs := seen + {entry.value.id}, refs + {entry.value.ref};
        if !ValidArtifact(sha, store, entry.value) {
          clean := false;
        } else if entry.value.id in required {
          verified := verified + {entry.value.id};
        }
      }
    }
    assert artifacts[..|artifacts|] == artifacts;
    forall id | Fills(sha, store, artifacts, id)
      ensures exists j | 0 <= j < |artifacts| :: artifacts[j].Some? && artifacts[j].value.id == id
    {
      FilledSlot(sha, store, artifacts, id);
    }
  }

  lemma NothingFiled(sha: Bytes -> string, store: Store, artifacts: seq<Option<Artifact>>)
    ensures Filed(sha, store, artifacts[..0])
  {
  }

  lemma FillsItsSlot(sha: Bytes -> string, store: Store, artifacts: seq<Option<Artifact>>, i: nat)
    requires i < |artifacts|
    ensures artifacts[i].Some? && ValidArtifact(sha, store, artifacts[i].value) ==>
      Fills(sha, store, artifacts, artifacts[i].value.id)
  {
    hide ValidArtifact;
  }

  lemma FilledSlot(sha: Bytes -> string, store: Store, artifacts: seq<Option<Artifact>>, id: string)
    requires Fills(sha, store, artifacts, id)
    ensures exists j | 0 <= j < |artifacts| :: artifacts[j].Some? && artifacts[j].value.id == id
  {
    hide ValidArtifact;
  }

  lemma FiledUpTo(sha: Bytes -> string, store: Store, artifacts: seq<Option<Artifact>>, i: nat)
    requires i < |artifacts|
    ensures Filed(sha, store, artifacts[..i + 1])
       <==> && Filed(sha, store, artifacts[..i])
            && artifacts[i].Some? && ValidArtifact(sha, store, artifacts[i].value)
            && forall j | 0 <= j < i && artifacts[j].Some? ::
                 artifacts[j].value.id != artifacts[i].value.id && artifacts[j].value.ref != artifacts[i].value.ref
  {
    hide ValidArtifact;
    assert artifacts[..i + 1] == artifacts[..i] + [artifacts[i]];
  }

  // ---------------------------------------------------------------- gate reports

  datatype Finding = Finding(blocking: bool, severity: string)

  datatype Response = Response(subjectSha: string, decision: string)

  datatype CommandResult = CommandResult(status: string, exitCode: int)

  /** A runner record; None is a missing field. There are two fields for the commands that were run. */
  datatype AgentRun = AgentRun(subjectSha: Option<string>, response: Option<Response>, agentDecision: Option<string>,
                               commands: Option<seq<CommandResult>>, commandsRun: Option<seq<CommandResult>>,
                               findings: seq<Finding>, artifacts: seq<Artifact>)

  datatype GateReport = GateReport(runId: string, gate: string, implementationSha: Option<string>, decision: string,
                                   findings: seq<Finding>, commands: seq<CommandResult>, evidence: seq<Artifact>)

  predicate Serious(f: Finding) {
    f.severity == "critical" || f.severity == "high"
  }

  function FirstGiven(a: Option<seq<CommandResult>>, b: Option<seq<CommandResult>>): seq<CommandResult> {
    if a.Some? then a.value else if b.Some? then b.value else []
  }

  predicate AllCompleted(commands: seq<CommandResult>) {
    forall c | c in commands :: c.status == "completed" && c.exitCode == 0
  }

  /** What is judged is `commands`, if it is there, and otherwise `commands_run`. */
  predicate Usable(run: AgentRun) {
    && run.agentDecision == Some("pass")
    && run.response.Some? && run.response.value.decision == "pass"
    && AllCompleted(FirstGiven(run.commands, run.commandsRun))
    && (forall f | f in run.findings :: !f.blocking && !Serious(f))
  }

  function ProviderResponses(artifacts: seq<Artifact>): seq<Artifact> {
    if artifacts == [] then []
    else (if artifacts[0].kind == "provider-response" then [artifacts[0]] else []) + ProviderResponses(artifacts[1..])
  }

  const NoRun := AgentRun(None, None, None, None, None, [], [])

  /**
   One gate's report: what the runner observed, and `blocked` unless observation and report agree. What is
   reported is `commands_run`, if it is there, and otherwise `commands`.
   */
  function GateReportOf(runId: string, sha: string, runs: map<string, AgentRun>, gate: string): GateReport {
    var run := if gate in runs then runs[gate] else NoRun;
    var reported := if run.response.Some? then Some(run.response.value.subjectSha) else None;
    var decision := if run.agentDecision.Some? then run.agentDecision.value else "blocked";
    GateReport(runId, gate, run.subjectSha,
               if run.subjectSha != Some(sha) || reported != Some(sha) || !Usable(run) then "blocked" else decision,
               run.findings, FirstGiven(run.commandsRun, run.commands), ProviderResponses(run.artifacts))
  }

  /** A report says pass exactly when the run itself did, about this very commit, twice over. */
  lemma PassIsEarned(runId: string, sha: string, runs: map<string, AgentRun>, gate: string)
    ensures GateReportOf(runId, sha, runs, gate).decision == "pass"
       <==> && gate in runs && Usable(runs[gate])
            && runs[gate].subjectSha == Some(sha) && runs[gate].response.value.subjectSha == sha
  {
  }

  /**
   So a report that says pass may list a command that failed: exactly when the run has both fields and it is the
   one not judged that has the failure.
   */
  lemma PassedCommands(runId: string, sha: string, runs: map<string, AgentRun>, gate: string)
    requires GateReportOf(runId, sha, runs, gate).decision == "pass"
    ensures gate in runs
    ensures AllCompleted(GateReportOf(runId, sha, runs, gate).commands)
       <==> runs[gate].commands.None? || runs[gate].commandsRun.None? || AllCompleted(runs[gate].commandsRun.value)
  {
    PassIsEarned(runId, sha, runs, gate);
  }

  /** A run whose report does. */
  lemma FailureIsReportedAsPassed() returns (run: AgentRun, failed: CommandResult)
    ensures failed == CommandResult("failed", 1)
    ensures run == AgentRun(Some("c"), Some(Response("c", "pass")), Some("pass"), Some([]), Some([failed]), [], [])
    ensures var report := GateReportOf("run", "c", map[GATES[0] := run], GATES[0]);
      report.decision == "pass" && failed in report.commands && !AllCompleted(report.commands)
  {
    failed := CommandResult("failed", 1);
    run := AgentRun(Some("c"), Some(Response("c", "pass")), Some("pass"), Some([]), Some([failed]), [], []);
    assert failed in [failed];
  }

  /** The decision of each gate, as aggregated. */
  function DecisionsOf(runId: string, sha: string, runs: map<string, AgentRun>): map<string, string> {
    map gate | gate in GATES :: GateReportOf(runId, sha, runs, gate).decision
  }

  method AggregateGateReports(runId: string, sha: string, runs: map<string, AgentRun>)
      returns (reports: seq<GateReport>)
    ensures |reports| == |GATES|
    ensures forall i | 0 <= i < |GATES| :: reports[i] == GateReportOf(runId, sha, runs, GATES[i])
  {
    reports := [];
    for i := 0 to |GATES|
      invariant |reports| == i
      invariant forall j | 0 <= j < i :: reports[j] == GateReportOf(runId, sha, runs, GATES[j])
    {
      reports := reports + [GateReportOf(runId, sha, runs, GATES[i])];
    }
  }

  // ---------------------------------------------------------------- the evaluator

  datatype Policy = Policy(requiredDecisions: seq<string>, maxCritical: nat, maxHigh: nat,
                           minCompleteness: real, minProvenance: real)

  /** None stands for a field that is missing or of the wrong type. */
  datatype Manifest = Manifest(
    identityOk: bool, baseSha: Option<string>, implementationSha: Option<string>, decision: string, runId: string,
    evidence: Option<seq<Option<Artifact>>>, gateDecisions: Option<map<string, string>>,
    gateReports: Option<seq<Option<GateReport>>>, findings: Option<seq<Finding>>,
    completeness: Option<real>, provenance: Option<real>)

  predicate FileMatches(sha: Bytes -> string, store: Store, a: Artifact) {
    a.ref in store && sha(store[a.ref]) == Lower(a.sha)
  }

  predicate ListedEvidence(sha: Bytes -> string, store: Store, entry: Option<Artifact>) {
    entry.Some? && entry.value.kind != "" && entry.value.ref != "" && entry.value.sha != ""
    && FileMatches(sha, store, entry.value)
  }

  function CountSeverity(findings: seq<Finding>, severity: string): nat {
    if findings == [] then 0
    else
      CountSeverity(findings[..|findings| - 1], severity)
      + if findings[|findings| - 1].severity == severity then 1 else 0
  }

  /** A report that meets the policy for one gate at one commit. */
  predicate GoodReport(sha: Bytes -> string, store: Store, m: Manifest, report: GateReport) {
    && report.decision == "pass" && report.implementationSha == m.implementationSha
    && report.evidence != [] && forall a | a in report.evidence :: FileMatches(sha, store, a)
  }

  ghost predicate ReportsOk(sha: Bytes -> string, store: Store, m: Manifest, required: seq<string>,
                            reports: seq<Option<GateReport>>) {
    && (forall i | 0 <= i < |reports| :: reports[i].Some? && reports[i].value.gate != "")
    && (forall i, j | 0 <= i < j < |reports| && reports[i].Some? && reports[j].Some? ::
          reports[i].value.gate != reports[j].value.gate)
    && (forall gate | gate in required :: HasGoodReport(sha, store, m, reports, gate))
  }

  ghost predicate HasGoodReport(sha: Bytes -> string, store: Store, m: Manifest, reports: seq<Option<GateReport>>,
                                gate: string) {
    exists i | 0 <= i < |reports| :: reports[i].Some? && reports[i].value.gate == gate
                                    && GoodReport(sha, store, m, reports[i].value)
  }

  predicate IsCommit(o: Option<string>) {
    o.Some? && |o.value| == 40 && forall c | c in o.value :: '0' <= c <= '9' || 'a' <= c <= 'f' || 'A' <= c <= 'F'
  }

  predicate NumbersOk(m: Manifest, p: Policy) {
    && m.findings.Some?
    && CountSeverity(m.findings.value, "critical") <= p.maxCritical
    && CountSeverity(m.findings.value, "high") <= p.maxHigh
    && m.completeness.Some? && m.completeness.value >= p.minCompleteness
    && m.provenance.Some? && m.provenance.value >= p.minProvenance
  }

  /** `evaluate` finds no failure. */
  ghost predicate Passes(sha: Bytes -> string, store: Store, m: Manifest, p: Policy) {
    && m.identityOk && IsCommit(m.baseSha) && IsCommit(m.implementationSha) && m.decision == "pass"
    && m.evidence.Some? && m.evidence.value != [] && (forall i | 0 <= i < |m.evidence.value| ::
                                                        ListedEvidence(sha, store, m.evidence.value[i]))
    && m.gateDecisions.Some?
    && (forall gate | gate in p.requiredDecisions ::
          gate in m.gateDecisions.value && m.gateDecisions.value[gate] == "pass")
    && m.gateReports.Some? && ReportsOk(sha, store, m, p.requiredDecisions, m.gateReports.value)
    && NumbersOk(m, p)
  }

  /** Every report is readable and names a gate, and no two name the same. */
  ghost predicate WellNamed(reports: seq<Option<GateReport>>) {
    && (forall i | 0 <= i < |reports| :: reports[i].Some? && reports[i].value.gate != "")
    && (forall i, j | 0 <= i < j < |reports| && reports[i].Some? && reports[j].Some? ::
          reports[i].value.gate != reports[j].value.gate)
  }

  ghost predicate Indexes(byGate: map<string, GateReport>, reports: seq<Option<GateReport>>) {
    forall i | 0 <= i < |reports| && reports[i].Some? ::
      reports[i].value.gate in byGate && byGate[reports[i].value.gate] == reports[i].value
  }

  ghost predicate FromReports(byGate: map<string, GateReport>, reports: seq<Option<GateReport>>) {
    forall gate | gate in byGate :: byGate[gate].gate == gate && Some(byGate[gate]) in reports
  }

  /** Index the reports by gate; the first report of a gate is the one that counts, a second is a failure. */
  method IndexReports(reports: seq<Option<GateReport>>) returns (byGate: map<string, GateReport>, clean: bool)
    ensures clean <==> WellNamed(reports)
    ensures FromReports(byGate, reports)
    ensures clean ==> Indexes(byGate, reports)
  {
    hide WellNamed, Indexes, FromReports;
    byGate, clean := map[], true;
    NothingToIndex();
    for n := 0 to |reports|
      invariant clean <==> WellNamed(reports[..n])
      invariant FromReports(byGate, reports[..n])
      invariant clean ==> Indexes(byGate, reports[..n])
    {
      var entry := reports[n];
      assert reports[..n + 1] == reports[..n] + [entry];
      OneMoreReport(byGate, reports[..n], entry);
      if entry.None? || entry.value.gate == "" || entry.value.gate in byGate {
        clean := false;
      } else {
        byGate := byGate[entry.value.gate := entry.value];
      }
    }
    assert reports[..|reports|] == reports;
  }

  lemma NothingToIndex()
    ensures WellNamed([]) && Indexes(map[], []) && FromReports(map[], [])
  {
  }

  lemma OneMoreReport(byGate: map<string, GateReport>, reports: seq<Option<GateReport>>, entry: Option<GateReport>)
    requires FromReports(byGate, reports)
    requires WellNamed(reports) ==> Indexes(byGate, reports)
    ensures FromReports(byGate, reports + [entry])
    ensures WellNamed(reports + [entry]) <==>
              WellNamed(reports) && entry.Some? && entry.value.gate != "" && entry.value.gate !in byGate
    ensures entry.Some? && entry.value.gate !in byGate ==>
      && FromReports(byGate[entry.value.gate := entry.value], reports + [entry])
      && (WellNamed(reports) ==> Indexes(byGate[entry.value.gate := entry.value], reports + [entry]))
  {
    var all := reports + [entry];
    assert all[|reports|] == entry && forall i | 0 <= i < |reports| :: all[i] == reports[i];
    if entry.Some? && entry.value.gate in byGate {
      var i :| 0 <= i < |reports| && reports[i] == Some(byGate[entry.value.gate]);
      assert all[i].value.gate == all[|reports|].value.gate;
    }
  }

  method Evaluate(sha: Bytes -> string, store: Store, m: Manifest, p: Policy) returns (passed: bool)
    ensures passed <==> Passes(sha, store, m, p)
  {
    hide IsCommit;
    hide NumbersOk;
    hide GoodReport;
    hide ListedEvidence;
    passed := m.identityOk && IsCommit(m.baseSha) && IsCommit(m.implementationSha) && m.decision == "pass"
              && NumbersOk(m, p);
    if m.evidence.None? || m.evidence.value == [] || m.gateDecisions.None? || m.gateReports.None? {
      return false;
    }
    var listed := forall i | 0 <= i < |m.evidence.value| :: ListedEvidence(sha, store, m.evidence.value[i]);
    passed := passed && listed;
    var byGate, clean := IndexReports(m.gateReports.value);
    passed := passed && clean;
    for n := 0 to |p.requiredDecisions|
      invariant passed <==>
        && m.identityOk && IsCommit(m.baseSha) && IsCommit(m.implementationSha) && m.decision == "pass"
        && NumbersOk(m, p) && listed && clean
        && forall i | 0 <= i < n :: GateOk(sha, store, m, byGate, p.requiredDecisions[i])
    {
      passed := passed && GateOk(sha, store, m, byGate, p.requiredDecisions[n]);
    }
    if clean {
      forall gate
        ensures (gate in byGate && GoodReport(sha, store, m, byGate[gate]))
           <==> HasGoodReport(sha, store, m, m.gateReports.value, gate)
      {
        if gate in byGate {
          var i :| 0 <= i < |m.gateReports.value| && m.gateReports.value[i] == Some(byGate[gate]);
        }
      }
    }
    forall gate | gate in p.requiredDecisions && passed
      ensures GateOk(sha, store, m, byGate, gate)
    {
      var i :| 0 <= i < |p.requiredDecisions| && p.requiredDecisions[i] == gate;
      assert GateOk(sha, store, m, byGate, p.requiredDecisions[i]);
    }
  }

  predicate GateOk(sha: Bytes -> string, store: Store, m: Manifest, byGate: map<string, GateReport>, gate: string) {
    && m.gateDecisions.Some? && gate in m.gateDecisions.value && m.gateDecisions.value[gate] == "pass"
    && gate in byGate && GoodReport(sha, store, m, byGate[gate])
  }
}
