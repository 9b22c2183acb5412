/**
 What it takes for a retained evidence bundle to pass: every artifact slot filled, the provenance measured twice
 from retained reports, every agent's session replayed from its retained protocol, the gate reports aggregated
 from the runs themselves, and the policy evaluator.
 */
module Bundles {
  import opened Wrappers
  import opened Texts
  import opened Provenance
  import opened Evidence
  import Adapter
  import Protocol
  import Replays
  import Resolutions

  // ---------------------------------------------------------------- required slots

  datatype Output = Output(id: string, kind: string)

  datatype Check = Check(checkId: string, outputs: seq<Output>)

  /** The parts of the frozen task and the trusted snapshot that name evidence; `frozen` are its files by slot. */
  datatype Trusted = Trusted(baseSha: string, taskId: string, policy: Policy, frozen: seq<(string, Bytes)>,
                             agentEvidence: seq<string>, checks: seq<Check>, provenanceCheck: string,
                             population: Option<Population>, inputs: map<string, Bytes>)

  const QUALITY_CHECK := "quality-fixture"
  const LABELS: seq<string> := ["architect", "builder"] + GATES
  const RUN_SUFFIXES: set<string> := {"stdout", "stderr", "invocation", "protocol"}
  const CHECK_SUFFIXES: set<string> := {"command", "stdout", "stderr"}

  function CheckSlots(checks: seq<Check>): set<string> {
    if checks == [] then {}
    else
      var c := checks[|checks| - 1];
      CheckSlots(checks[..|checks| - 1]) + (set s | s in CHECK_SUFFIXES :: c.checkId + ":" + s)
      + (set o | o in c.outputs :: o.id)
  }

  function RequiredSlots(t: Trusted): set<string> {
    (set f | f in t.frozen :: f.0) + Elements(t.agentEvidence)
    + (set l, s | l in LABELS && s in RUN_SUFFIXES :: l + ":" + s)
    + {"candidate:changes"} + CheckSlots(t.checks)
  }

  // ---------------------------------------------------------------- reading what is retained

  datatype Bundle = Bundle(manifest: Manifest, schemaVersion: int, taskId: string, trustedBaseSha: string,
                           artifacts: seq<Option<Artifact>>, runs: map<string, AgentRun>,
                           coverageScope: Option<string>, measurements: Option<Coverage>)

  /** What `calculate_coverage` returns. */
  datatype Coverage = Coverage(completeness: real, ratio: Option<real>, scope: string, required: seq<string>,
                               verified: seq<string>, missing: seq<string>, requiredCount: nat, verifiedCount: nat,
                               errors: seq<string>, provenance: Measurement)

  const SCOPE := "synthetic-regression"

  /**
   How retained bytes are read, left open: a provenance report, a protocol capture, the invocation context that
   the frozen inputs and the capture's home directory give for an agent, and the bytes of a text.
   */
  datatype Reader = Reader(digests: Digests, report: Bytes -> Option<Report>, codec: Adapter.Codec,
                           capture: Bytes -> Option<Adapter.Capture>,
                           expected: (string, Adapter.Capture) -> Option<Protocol.Expected>,
                           encode: string -> Bytes)

  /** The last record of each id. */
  function ById(artifacts: seq<Option<Artifact>>): map<string, Artifact> {
    if artifacts == [] then map[]
    else
      var known, last := ById(artifacts[..|artifacts| - 1]), artifacts[|artifacts| - 1];
      if last.Some? then known[last.value.id := last.value] else known
  }

  /** The bytes in a slot, if a valid artifact fills it. */
  function Retained(d: Digests, store: Store, artifacts: seq<Option<Artifact>>, id: string): Option<Bytes> {
    var known := ById(artifacts);
    if id in known && ValidArtifact(d.sha, store, known[id]) then Some(store[known[id].ref]) else None
  }

  lemma {:induction false} KnownIsListed(artifacts: seq<Option<Artifact>>)
    ensures forall id | id in ById(artifacts) :: Some(ById(artifacts)[id]) in artifacts
  {
    if artifacts != [] {
      KnownIsListed(artifacts[..|artifacts| - 1]);
    }
  }

  // ---------------------------------------------------------------- the copies of the frozen inputs

  /** The bundle's copy of a frozen file: about the base commit, a trusted input, and of the file's own hash. */
  predicate IsCopied(d: Digests, t: Trusted, artifacts: seq<Option<Artifact>>, file: (string, Bytes)) {
    var known := ById(artifacts);
    && file.0 in known && known[file.0].subjectSha == t.baseSha && known[file.0].kind == "trusted-input"
    && known[file.0].sha == d.sha(file.1)
  }

  method CompareCopies(d: Digests, t: Trusted, artifacts: seq<Option<Artifact>>) returns (same: bool)
    ensures same <==> forall file | file in t.frozen :: IsCopied(d, t, artifacts, file)
  {
    hide IsCopied;
    same := true;
    for i := 0 to |t.frozen|
      invariant same <==> forall file | file in t.frozen[..i] :: IsCopied(d, t, artifacts, file)
    {
      assert t.frozen[..i + 1] == t.frozen[..i] + [t.frozen[i]];
      same := same && IsCopied(d, t, artifacts, t.frozen[i]);
    }
    assert t.frozen[..|t.frozen|] == t.frozen;
  }

  /** Where every artifact is valid, the bytes in the slot of a copied file have the hash of that file. */
  lemma CopyHasTheHash(d: Digests, store: Store, t: Trusted, artifacts: seq<Option<Artifact>>, file: (string, Bytes))
    requires Filed(d.sha, store, artifacts) && IsCopied(d, t, artifacts, file)
    ensures Retained(d, store, artifacts, file.0).Some?
    ensures d.sha(Retained(d, store, artifacts, file.0).value) == d.sha(file.1)
  {
    hide ById;
    KnownIsListed(artifacts);
    var i :| 0 <= i < |artifacts| && artifacts[i] == Some(ById(artifacts)[file.0]);
  }

  // ---------------------------------------------------------------- the two measurements

  function ReportSlots(outputs: seq<Output>): seq<string> {
    if outputs == [] then []
    else (if outputs[0].kind == "provenance-result" then [outputs[0].id] else []) + ReportSlots(outputs[1..])
  }

  /** The one report a check retains, read from the slot that its output names. */
  function RetainedReport(rd: Reader, store: Store, artifacts: seq<Option<Artifact>>, c: Check): Option<Report> {
    var slots := ReportSlots(c.outputs);
    if |slots| != 1 then None
    else
      var bytes :- Retained(rd.digests, store, artifacts, slots[0]);
      rd.report(bytes)
  }

  predicate IsMeasured(t: Trusted, c: Check) {
    c.checkId == t.provenanceCheck || c.checkId == QUALITY_CHECK
  }

  /** A report leads to this measurement and leaves no finding. */
  ghost predicate MeasuredClean(d: Digests, t: Trusted, report: Option<Report>, sha: string, m: Measurement) {
    Measures(d, t.population, t.inputs, report, m) && Sound(d, t.population, t.inputs, report, sha, m)
  }

  /** The last check of this id, which is the one whose measurement counts. */
  function LastCheck(checks: seq<Check>, id: string): Option<Check> {
    if checks == [] then None
    else if checks[|checks| - 1].checkId == id then Some(checks[|checks| - 1])
    else LastCheck(checks[..|checks| - 1], id)
  }

  /** The check of this id retains a report that leads to m. */
  ghost predicate CheckMeasures(rd: Reader, store: Store, t: Trusted, artifacts: seq<Option<Artifact>>, sha: string,
                                checks: seq<Check>, id: string, m: Measurement) {
    && LastCheck(checks, id).Some?
    && MeasuredClean(rd.digests, t, RetainedReport(rd, store, artifacts, LastCheck(checks, id).value), sha, m)
  }

  ghost predicate IsClean(rd: Reader, store: Store, t: Trusted, artifacts: seq<Option<Artifact>>, sha: string,
                          c: Check) {
    IsMeasured(t, c) ==> exists m :: MeasuredClean(rd.digests, t, RetainedReport(rd, store, artifacts, c), sha, m)
  }

  /** Every measured check is clean, and source and quality measure the same. */
  ghost predicate MeasuredTwice(rd: Reader, store: Store, t: Trusted, artifacts: seq<Option<Artifact>>, sha: string,
                                m: Measurement) {
    && t.provenanceCheck != QUALITY_CHECK
    && (forall c | c in t.checks :: IsClean(rd, store, t, artifacts, sha, c))
    && CheckMeasures(rd, store, t, artifacts, sha, t.checks, t.provenanceCheck, m)
    && CheckMeasures(rd, store, t, artifacts, sha, t.checks, QUALITY_CHECK, m)
  }

  /** One measurement for one check, whose findings are those of the measuring. */
  method MeasureCheck(rd: Reader, store: Store, t: Trusted, artifacts: seq<Option<Artifact>>, sha: string, c: Check)
      returns (m: Measurement, clean: bool)
    ensures clean <==> MeasuredClean(rd.digests, t, RetainedReport(rd, store, artifacts, c), sha, m)
    ensures forall n :: MeasuredClean(rd.digests, t, RetainedReport(rd, store, artifacts, c), sha, n) ==> n == m
  {
    hide Sound, Measures, RetainedReport;
    var report := RetainedReport(rd, store, artifacts, c);
    m, clean := MeasureProvenance(rd.digests, t.population, t.inputs, report, sha);
    forall n | MeasuredClean(rd.digests, t, report, sha, n)
      ensures n == m
    {
      MeasurementIsUnique(rd.digests, t.population, t.inputs, report, n, m);
    }
  }

  /** The loop over the checks; source and quality are what the last check of each name measured. */
  method MeasureChecks(rd: Reader, store: Store, t: Trusted, artifacts: seq<Option<Artifact>>, sha: string)
      returns (passed: bool, m: Measurement)
    ensures passed <==> MeasuredTwice(rd, store, t, artifacts, sha, m)
    ensures !passed ==> forall n :: !MeasuredTwice(rd, store, t, artifacts, sha, n)
  {
    hide MeasuredClean, RetainedReport;
    var source: Option<Measurement>, quality: Option<Measurement>, clean := None, None, true;
    for i := 0 to |t.checks|
      invariant clean <==> forall j | 0 <= j < i :: IsClean(rd, store, t, artifacts, sha, t.checks[j])
      invariant clean ==> forall n ::
        CheckMeasures(rd, store, t, artifacts, sha, t.checks[..i], t.provenanceCheck, n) <==> source == Some(n)
      invariant clean && t.provenanceCheck != QUALITY_CHECK ==> forall n ::
        CheckMeasures(rd, store, t, artifacts, sha, t.checks[..i], QUALITY_CHECK, n) <==> quality == Some(n)
      invariant t.provenanceCheck == QUALITY_CHECK ==> quality.None?
    {
      var c := t.checks[i];
      assert t.checks[..i + 1][..i] == t.checks[..i];
      if IsMeasured(t, c) {
        var measured, found := MeasureCheck(rd, store, t, artifacts, sha, c);
        clean := clean && found;
        if c.checkId == t.provenanceCheck {
          source := Some(measured);
        } else {
          quality := Some(measured);
        }
      }
    }
    assert t.checks[..|t.checks|] == t.checks;
    passed := clean && source.Some? && quality == source;
    m := if source.Some? then source.value else Measurement("", [], [], [], None);
  }

  // ---------------------------------------------------------------- the agents' sessions

  /** The agent's retained protocol replays over its retained output and ends in its retained response. */
  predicate AgentReplayed(rd: Reader, store: Store, artifacts: seq<Option<Artifact>>, agent: string, slot: string) {
    var stdout, protocol, response :=
      Retained(rd.digests, store, artifacts, agent + ":stdout"),
      Retained(rd.digests, store, artifacts, agent + ":protocol"),
      Retained(rd.digests, store, artifacts, slot);
    && stdout.Some? && protocol.Some? && response.Some?
    && var capture := rd.capture(protocol.value);
    && capture.Some?
    && var expected := rd.expected(agent, capture.value);
    && expected.Some?
    && var verdict := Adapter.ReplayCapture(rd.codec, expected.value, capture.value, stdout.value);
    && verdict.Some? && rd.encode(verdict.value.responseText) == response.value
  }

  ghost predicate AllReplayed(rd: Reader, store: Store, t: Trusted, artifacts: seq<Option<Artifact>>) {
    && |t.agentEvidence| == |LABELS|
    && forall i | 0 <= i < |LABELS| :: AgentReplayed(rd, store, artifacts, LABELS[i], t.agentEvidence[i])
  }

  method ReplayAgents(rd: Reader, store: Store, t: Trusted, artifacts: seq<Option<Artifact>>) returns (ok: bool)
    ensures ok <==> AllReplayed(rd, store, t, artifacts)
  {
    hide AgentReplayed;
    if |t.agentEvidence| != |LABELS| {
      return false;
    }
    ok := true;
    for i := 0 to |LABELS|
      invariant ok <==> forall j | 0 <= j < i :: AgentReplayed(rd, store, artifacts, LABELS[j], t.agentEvidence[j])
    {
      ok := ok && AgentReplayed(rd, store, artifacts, LABELS[i], t.agentEvidence[i]);
    }
  }

  // ---------------------------------------------------------------- the bundle

  ghost predicate CoverageComplete(d: Digests, store: Store, t: Trusted, b: Bundle) {
    && RequiredSlots(t) != {} && Filed(d.sha, store, b.artifacts)
    && forall id | id in RequiredSlots(t) :: Fills(d.sha, store, b.artifacts, id)
  }

  ghost predicate AggregationMatches(b: Bundle, sha: string) {
    && b.manifest.gateReports.Some? && |b.manifest.gateReports.value| == |GATES|
    && (forall i | 0 <= i < |GATES| ::
          b.manifest.gateReports.value[i] == Some(GateReportOf(b.manifest.runId, sha, b.runs, GATES[i])))
    && b.manifest.gateDecisions == Some(DecisionsOf(b.manifest.runId, sha, b.runs))
  }

  predicate SameTask(t: Trusted, b: Bundle) {
    && b.schemaVersion == 2 && b.taskId == t.taskId
    && b.trustedBaseSha == t.baseSha && b.manifest.baseSha == Some(t.baseSha)
    && b.runs.Keys == Elements(LABELS)
  }

  /** The coverage in which every slot is filled and nothing is amiss, listed in ascending order. */
  ghost predicate IsFullCoverage(c: Coverage, slots: set<string>, m: Measurement) {
    && c.completeness == 1.0 && c.ratio == m.ratio && c.scope == SCOPE && c.provenance == m
    && StrictlySorted(c.required) && Elements(c.required) == slots && c.verified == c.required && c.missing == []
    && c.requiredCount == c.verifiedCount == |slots| && c.errors == []
  }

  ghost predicate DeclaresMeasured(t: Trusted, b: Bundle, m: Measurement) {
    && b.manifest.completeness == Some(1.0) && b.manifest.provenance == m.ratio && b.coverageScope == Some(SCOPE)
    && b.measurements.Some? && IsFullCoverage(b.measurements.value, RequiredSlots(t), m)
    && b.manifest.evidence == Some(b.artifacts)
  }

  method CompareDeclared(t: Trusted, b: Bundle, m: Measurement) returns (same: bool)
    ensures same <==> DeclaresMeasured(t, b, m)
  {
    hide StrictlySorted, RequiredSlots;
    var slots := RequiredSlots(t);
    var listed := SortedKeys(slots);
    var coverage := Coverage(1.0, m.ratio, SCOPE, listed, listed, [], |slots|, |slots|, [], m);
    same := b.manifest.completeness == Some(1.0) && b.manifest.provenance == m.ratio && b.coverageScope == Some(SCOPE)
            && b.measurements == Some(coverage) && b.manifest.evidence == Some(b.artifacts);
    if DeclaresMeasured(t, b, m) {
      SortedIsUnique(b.measurements.value.required, listed);
    }
  }

  ghost predicate BundlePasses(rd: Reader, store: Store, t: Trusted, b: Bundle, otherChecks: bool, m: Measurement) {
    && otherChecks && SameTask(t, b)
    && b.manifest.implementationSha.Some? && IsHex(b.manifest.implementationSha.value, 40)
    && MeasuredTwice(rd, store, t, b.artifacts, b.manifest.implementationSha.value, m)
    && CoverageComplete(rd.digests, store, t, b)
    && (forall file | file in t.frozen :: IsCopied(rd.digests, t, b.artifacts, file))
    && AllReplayed(rd, store, t, b.artifacts)
    && AggregationMatches(b, b.manifest.implementationSha.value)
    && DeclaresMeasured(t, b, m)
    && Passes(rd.digests.sha, store, b.manifest, t.policy)
  }

  /**
   The verdict of `validate_evidence_bundle`. `otherChecks` stands for the checks on the verification contract,
   the execution profile, the change set, the retained commands, the findings and the fields of each agent's
   invocation and response, which can only add failures.
   */
  method ValidateEvidenceBundle(rd: Reader, store: Store, t: Trusted, b: Bundle, otherChecks: bool)
      returns (passed: bool, measured: Measurement)
    ensures passed <==> BundlePasses(rd, store, t, b, otherChecks, measured)
    ensures !passed ==> forall m :: !BundlePasses(rd, store, t, b, otherChecks, m)
  {
    hide Passes, MeasuredTwice, Filed, Fills, RequiredSlots, AllReplayed, SameTask, DeclaresMeasured, DecisionsOf;
    hide IsHex, IsCopied;
    passed, measured := false, Measurement("", [], [], [], None);
    if b.manifest.implementationSha.None? || !IsHex(b.manifest.implementationSha.value, 40) {
      return;
    }
    var subject, required := b.manifest.implementationSha.value, RequiredSlots(t);
    var twice;
    twice, measured := MeasureChecks(rd, store, t, b.artifacts, subject);
    var verified, clean := CalculateCoverage(rd.digests.sha, store, required, b.artifacts);
    var copied := CompareCopies(rd.digests, t, b.artifacts);
    var replayed := ReplayAgents(rd, store, t, b.artifacts);
    var reports := AggregateGateReports(b.manifest.runId, subject, b.runs);
    if !otherChecks || !SameTask(t, b) || !twice || !clean || required - verified != {} || !copied || !replayed {
      assert twice && clean && required - verified != {} ==> !CoverageComplete(rd.digests, store, t, b);
      return;
    }
    OneMeasurement(rd, store, t, b.artifacts, subject, measured);
    if b.manifest.gateReports.None? || |b.manifest.gateReports.value| != |reports|
       || exists i | 0 <= i < |reports| :: b.manifest.gateReports.value[i] != Some(reports[i])
    {
      return;
    }
    if b.manifest.gateDecisions != Some(DecisionsOf(b.manifest.runId, subject, b.runs)) {
      return;
    }
    var declared := CompareDeclared(t, b, measured);
    if !declared {
      return;
    }
    assert forall id | id in required :: id !in required - verified;
    passed := Evaluate(rd.digests.sha, store, b.manifest, t.policy);
  }

  lemma OneMeasurement(rd: Reader, store: Store, t: Trusted, artifacts: seq<Option<Artifact>>, sha: string,
                       m: Measurement)
    requires MeasuredTwice(rd, store, t, artifacts, sha, m)
    ensures forall n | MeasuredTwice(rd, store, t, artifacts, sha, n) :: n == m
  {
    hide Measures, Sound, RetainedReport;
    forall n | MeasuredTwice(rd, store, t, artifacts, sha, n)
      ensures n == m
    {
      var report := RetainedReport(rd, store, artifacts, LastCheck(t.checks, t.provenanceCheck).value);
      MeasurementIsUnique(rd.digests, t.population, t.inputs, report, n, m);
    }
  }

  // ---------------------------------------------------------------- what passing means

  /** What loading the trusted inputs insists on: exactly the eight gates, and thresholds of one. */
  ghost predicate TrustedPolicy(p: Policy) {
    Elements(p.requiredDecisions) == Elements(GATES) && p.minCompleteness == 1.0 && p.minProvenance == 1.0
  }

  /** A gate's run passed about this very commit, as observed by the runner and as reported by the agent. */
  ghost predicate GatePassed(b: Bundle, gate: string, sha: string) {
    && gate in b.runs && Usable(b.runs[gate])
    && b.runs[gate].subjectSha == Some(sha) && b.runs[gate].response.value.subjectSha == sha
  }

  /** In a passed bundle a required gate's own run has passed. */
  lemma GateOfPassedBundle(rd: Reader, store: Store, t: Trusted, b: Bundle, gate: string)
    requires b.manifest.implementationSha.Some? && gate in t.policy.requiredDecisions
    requires AggregationMatches(b, b.manifest.implementationSha.value)
    requires Passes(rd.digests.sha, store, b.manifest, t.policy)
    ensures GatePassed(b, gate, b.manifest.implementationSha.value)
  {
    hide IsCommit;
    hide NumbersOk;
    hide ListedEvidence;
    hide GateReportOf;
    hide FileMatches;
    var sha, reports := b.manifest.implementationSha.value, b.manifest.gateReports.value;
    assert HasGoodReport(rd.digests.sha, store, b.manifest, reports, gate);
    var i :| 0 <= i < |reports| && reports[i].Some? && reports[i].value.gate == gate
             && GoodReport(rd.digests.sha, store, b.manifest, reports[i].value);
    var report := GateReportOf(b.manifest.runId, sha, b.runs, GATES[i]);
    assert reports[i] == Some(report);
    PassIsEarned(b.manifest.runId, sha, b.runs, GATES[i]);
    GateOfReport(b.manifest.runId, sha, b.runs, GATES[i]);
  }

  lemma GateOfReport(runId: string, sha: string, runs: map<string, AgentRun>, gate: string)
    ensures GateReportOf(runId, sha, runs, gate).gate == gate
  {
  }

  lemma ProvenanceThreshold(sha: Bytes -> string, store: Store, m: Manifest, p: Policy)
    requires Passes(sha, store, m, p)
    ensures m.provenance.Some? && m.provenance.value >= p.minProvenance
  {
    hide ReportsOk;
    hide ListedEvidence;
    hide CountSeverity;
  }

  /** Each fact of the trusted population has a claim in this report that deriving it again confirms. */
  ghost predicate AllProven(d: Digests, t: Trusted, report: Report) {
    t.population.Some? && forall fid | fid in Definitions(t.population.value.records) ::
      exists p | p in report.records ::
        p.factId == fid && Proven(d, t.inputs, Definitions(t.population.value.records), p)
  }

  lemma FullyMeasuredIsProven(d: Digests, t: Trusted, report: Option<Report>, sha: string, m: Measurement)
    requires MeasuredClean(d, t, report, sha, m) && m.ratio.Some? && m.ratio.value >= 1.0
    ensures report.Some? && AllProven(d, t, report.value) && m.ratio == Some(1.0) && m.uncovered == []
  {
    hide Proven, Definitions, ValidReport;
    RatioIsOne(m);
    forall fid | fid in Definitions(t.population.value.records)
      ensures exists p | p in report.value.records ::
        p.factId == fid && Proven(d, t.inputs, Definitions(t.population.value.records), p)
    {
      assert fid in Elements(m.eligible) && fid in Elements(m.covered);
    }
  }

  /** The report that the check of this name has retained. */
  ghost function ReportOf(rd: Reader, store: Store, t: Trusted, artifacts: seq<Option<Artifact>>, id: string)
      : Option<Report>
  {
    if LastCheck(t.checks, id).None? then None
    else RetainedReport(rd, store, artifacts, LastCheck(t.checks, id).value)
  }

  /**
   What passing means. Every gate passed about exactly this commit; every required slot is filled by a file whose
   hash matches, no id or reference being used twice; each frozen input has a copy of its own hash; the retained
   protocol of each of the ten agents replays to its retained response; and both retained reports prove every fact
   of the trusted population again.
   */
  lemma PassedBundleIsSound(rd: Reader, store: Store, t: Trusted, b: Bundle, otherChecks: bool, m: Measurement)
    requires BundlePasses(rd, store, t, b, otherChecks, m) && TrustedPolicy(t.policy)
    ensures forall gate | gate in GATES :: GatePassed(b, gate, b.manifest.implementationSha.value)
    ensures Filed(rd.digests.sha, store, b.artifacts)
    ensures forall id | id in RequiredSlots(t) :: Fills(rd.digests.sha, store, b.artifacts, id)
    ensures m.ratio == Some(1.0) && m.uncovered == []
    ensures forall id | id in [t.provenanceCheck, QUALITY_CHECK] ::
      && ReportOf(rd, store, t, b.artifacts, id).Some?
      && AllProven(rd.digests, t, ReportOf(rd, store, t, b.artifacts, id).value)
    ensures forall file | file in t.frozen ::
      && Retained(rd.digests, store, b.artifacts, file.0).Some?
      && rd.digests.sha(Retained(rd.digests, store, b.artifacts, file.0).value) == rd.digests.sha(file.1)
    ensures |t.agentEvidence| == |LABELS|
    ensures forall i | 0 <= i < |LABELS| :: AgentReplayed(rd, store, b.artifacts, LABELS[i], t.agentEvidence[i])
  {
    hide Passes, GatePassed, Filed, Fills, RequiredSlots, AggregationMatches, MeasuredClean, AgentReplayed, AllProven,
      RetainedReport, LastCheck, Retained, IsCopied;
    forall file | file in t.frozen
      ensures Retained(rd.digests, store, b.artifacts, file.0).Some?
      ensures rd.digests.sha(Retained(rd.digests, store, b.artifacts, file.0).value) == rd.digests.sha(file.1)
    {
      CopyHasTheHash(rd.digests, store, t, b.artifacts, file);
    }
    forall gate | gate in GATES
      ensures GatePassed(b, gate, b.manifest.implementationSha.value)
    {
      assert gate in Elements(t.policy.requiredDecisions);
      GateOfPassedBundle(rd, store, t, b, gate);
    }
    ProvenanceThreshold(rd.digests.sha, store, b.manifest, t.policy);
    forall id | id in [t.provenanceCheck, QUALITY_CHECK]
      ensures ReportOf(rd, store, t, b.artifacts, id).Some?
      ensures AllProven(rd.digests, t, ReportOf(rd, store, t, b.artifacts, id).value)
      ensures m.ratio == Some(1.0) && m.uncovered == []
    {
      var report := ReportOf(rd, store, t, b.artifacts, id);
      FullyMeasuredIsProven(rd.digests, t, report, b.manifest.implementationSha.value, m);
    }
    assert t.provenanceCheck in [t.provenanceCheck, QUALITY_CHECK];
  }

  /** So the response of each agent is the answer of one whole session over the agent's own retained output. */
  lemma RetainedResponseWasSent(rd: Reader, store: Store, artifacts: seq<Option<Artifact>>, agent: string, slot: string)
      returns (e: Protocol.Expected, records: seq<Adapter.Record>, v: Protocol.Verdict, i: nat, k: nat)
    requires AgentReplayed(rd, store, artifacts, agent, slot)
    ensures var protocol := Retained(rd.digests, store, artifacts, agent + ":protocol");
      && protocol.Some? && rd.capture(protocol.value).Some?
      && records == rd.capture(protocol.value).value.frames
      && rd.expected(agent, rd.capture(protocol.value).value) == Some(e)
      && Adapter.Replay(rd.codec, e, records) == Some(v)
    ensures Replays.IsWhole(e, Adapter.EventsOf(rd.codec, records), v, i, k)
    ensures Resolutions.Confirmed(e, rd.codec.parseText, Adapter.EventsOf(rd.codec, records), v, i)
    ensures Retained(rd.digests, store, artifacts, slot) == Some(rd.encode(v.responseText))
    ensures Retained(rd.digests, store, artifacts, agent + ":stdout")
         == Some(Adapter.Flatten(Adapter.ServerLines(records)))
  {
    hide Retained, Adapter.Replay, Replays.IsWhole, Resolutions.Confirmed;
    var stdout := Retained(rd.digests, store, artifacts, agent + ":stdout").value;
    var capture := rd.capture(Retained(rd.digests, store, artifacts, agent + ":protocol").value).value;
    e, records := rd.expected(agent, capture).value, capture.frames;
    v := Adapter.ReplayCapture(rd.codec, e, capture, stdout).value;
    i, k := Replays.AcceptedReplay(rd.codec, e, records);
  }
}
