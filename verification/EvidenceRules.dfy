/**
 The rules of the evidence bundle once more, spelled out on the fields of its records, the positions in its lists and
 the characters of its texts; and that the functions of `Evidence` and `Bundles` decide by exactly these rules.
 */
module EvidenceRules {
  import opened Wrappers
  import opened Texts
  import opened Provenance
  import opened Evidence
  import opened Bundles
  import Adapter
  import Protocol

  // ---------------------------------------------------------------- files

  /** The record describes the retained file: its kind is known, and its size and digest are the file's. */
  ghost predicate IsDescribed(sha: Bytes -> string, store: Store, a: Artifact) {
    && a.wellShaped && IsName(a.id) && IsDigest(a.sha, 64) && IsDigest(a.subjectSha, 40)
    && a.kind in {"command-result", "stdout", "stderr", "provider-response", "test-result", "provenance-population",
                  "provenance-result", "trusted-input", "change-set"}
    && (a.checkId.Some? ==> IsName(a.checkId.value))
    && a.ref in store && a.size == |store[a.ref]| <= 16_777_216 && a.sha == sha(store[a.ref])
  }

  lemma ArtifactsAreExact(sha: Bytes -> string, store: Store, a: Artifact)
    ensures ValidArtifact(sha, store, a) <==> IsDescribed(sha, store, a)
  {
    hide IsId, IsName, IsHex, IsDigest;
    NamesAreExact(a.id);
    DigestsAreExact(a.sha, 64);
    DigestsAreExact(a.subjectSha, 40);
    if a.checkId.Some? {
      NamesAreExact(a.checkId.value);
    }
  }

  /** Position i holds the last record of this id. */
  ghost predicate IsLastAt(artifacts: seq<Option<Artifact>>, id: string, i: nat) {
    && i < |artifacts| && artifacts[i].Some? && artifacts[i].value.id == id
    && forall j | i < j < |artifacts| && artifacts[j].Some? :: artifacts[j].value.id != id
  }

  lemma {:induction false} LastIsExact(artifacts: seq<Option<Artifact>>, id: string)
    ensures id in ById(artifacts) <==> exists i: nat :: IsLastAt(artifacts, id, i)
    ensures forall i: nat | IsLastAt(artifacts, id, i) :: ById(artifacts)[id] == artifacts[i].value
  {
    if artifacts != [] {
      var front, last := artifacts[..|artifacts| - 1], |artifacts| - 1;
      LastIsExact(front, id);
      if artifacts[last].Some? && artifacts[last].value.id == id {
        assert IsLastAt(artifacts, id, last);
      } else {
        forall i: nat
          ensures IsLastAt(artifacts, id, i) <==> IsLastAt(front, id, i)
        {
          assert forall j | 0 <= j < last :: artifacts[j] == front[j];
        }
      }
    }
  }

  /** The last record of the id describes a retained file, which has these bytes. */
  ghost predicate IsRetained(d: Digests, store: Store, artifacts: seq<Option<Artifact>>, id: string, bytes: Bytes) {
    exists i: nat | IsLastAt(artifacts, id, i) ::
      && artifacts[i].Some? && IsDescribed(d.sha, store, artifacts[i].value)
      && artifacts[i].value.ref in store && bytes == store[artifacts[i].value.ref]
  }

  lemma RetainedIsExact(d: Digests, store: Store, artifacts: seq<Option<Artifact>>, id: string, bytes: Bytes)
    ensures Retained(d, store, artifacts, id) == Some(bytes) <==> IsRetained(d, store, artifacts, id, bytes)
  {
    hide ById, IsLastAt, IsDescribed;
    LastIsExact(artifacts, id);
    if id in ById(artifacts) {
      var i: nat :| IsLastAt(artifacts, id, i);
      LastIsInside(artifacts, id, i);
      ArtifactsAreExact(d.sha, store, ById(artifacts)[id]);
    }
  }

  lemma LastIsInside(artifacts: seq<Option<Artifact>>, id: string, i: nat)
    requires IsLastAt(artifacts, id, i)
    ensures i < |artifacts| && artifacts[i].Some?
    ensures forall j: nat | IsLastAt(artifacts, id, j) :: j == i
  {
  }

  /** The last record of the slot is a trusted input about the base commit, and has the digest of the frozen file. */
  ghost predicate IsCopy(d: Digests, t: Trusted, artifacts: seq<Option<Artifact>>, slot: string, bytes: Bytes) {
    exists i: nat | IsLastAt(artifacts, slot, i) ::
      artifacts[i].value.kind == "trusted-input" && artifacts[i].value.subjectSha == t.baseSha
      && artifacts[i].value.sha == d.sha(bytes)
  }

  lemma CopiesAreExact(d: Digests, t: Trusted, artifacts: seq<Option<Artifact>>, file: (string, Bytes))
    ensures IsCopied(d, t, artifacts, file) <==> IsCopy(d, t, artifacts, file.0, file.1)
  {
    hide ById;
    LastIsExact(artifacts, file.0);
  }

  // ---------------------------------------------------------------- slots

  const AGENTS: set<string> := {
    "architect", "builder", "deterministic_ci", "contract_compatibility", "schema_integrity", "source_provenance",
    "data_quality", "security", "reliability", "independent_review"
  }

  /** The four slots of an agent and the three of a check. */
  ghost predicate IsAgentSlot(id: string) {
    exists agent | agent in AGENTS ::
      id == agent + ":stdout" || id == agent + ":stderr" || id == agent + ":invocation" || id == agent + ":protocol"
  }

  ghost predicate IsCheckSlot(c: Bundles.Check, id: string) {
    || id == c.checkId + ":command" || id == c.checkId + ":stdout" || id == c.checkId + ":stderr"
    || exists o | o in c.outputs :: o.id == id
  }

  lemma {:induction false} CheckSlotsAreExact(checks: seq<Bundles.Check>, id: string)
    ensures id in CheckSlots(checks) <==> exists c | c in checks :: IsCheckSlot(c, id)
  {
    hide IsCheckSlot, CHECK_SUFFIXES;
    if checks != [] {
      var front, last := checks[..|checks| - 1], checks[|checks| - 1];
      CheckSlotsAreExact(front, id);
      OneCheckIsExact(last, id);
      assert forall c :: c in checks <==> c in front || c == last;
    }
  }

  lemma OneCheckIsExact(c: Bundles.Check, id: string)
    ensures id in (set s | s in CHECK_SUFFIXES :: c.checkId + ":" + s) + (set o | o in c.outputs :: o.id)
       <==> IsCheckSlot(c, id)
  {
    assert (exists s | s in CHECK_SUFFIXES :: id == c.checkId + ":" + s)
       <==> id == c.checkId + ":command" || id == c.checkId + ":stdout" || id == c.checkId + ":stderr" by {
      Joined(c.checkId, "command");
      Joined(c.checkId, "stdout");
      Joined(c.checkId, "stderr");
      assert forall s :: s in CHECK_SUFFIXES <==> s == "command" || s == "stdout" || s == "stderr";
    }
    hide CHECK_SUFFIXES;
  }

  lemma Joined(name: string, suffix: string)
    ensures name + ":" + suffix == name + (":" + suffix)
  {
  }

  lemma AgentsAreExact(agent: string)
    ensures agent in LABELS <==> agent in AGENTS
  {
    assert LABELS == ["architect", "builder", "deterministic_ci", "contract_compatibility", "schema_integrity",
                      "source_provenance", "data_quality", "security", "reliability", "independent_review"];
  }

  lemma OneAgentIsExact(agent: string, id: string)
    ensures (exists s | s in RUN_SUFFIXES :: id == agent + ":" + s)
       <==> || id == agent + ":stdout" || id == agent + ":stderr" || id == agent + ":invocation"
            || id == agent + ":protocol"
  {
    Joined(agent, "stdout");
    Joined(agent, "stderr");
    Joined(agent, "invocation");
    Joined(agent, "protocol");
    assert forall s :: s in RUN_SUFFIXES <==> s == "stdout" || s == "stderr" || s == "invocation" || s == "protocol";
  }

  lemma AgentSlotsAreExact(id: string)
    ensures id in (set l, s | l in LABELS && s in RUN_SUFFIXES :: l + ":" + s) <==> IsAgentSlot(id)
  {
    hide AGENTS, LABELS, RUN_SUFFIXES;
    forall agent
      ensures agent in LABELS <==> agent in AGENTS
      ensures (exists s | s in RUN_SUFFIXES :: id == agent + ":" + s)
         <==> || id == agent + ":stdout" || id == agent + ":stderr" || id == agent + ":invocation"
              || id == agent + ":protocol"
    {
      AgentsAreExact(agent);
      OneAgentIsExact(agent, id);
    }
  }

  /** The slots that a bundle has to fill. */
  ghost predicate IsRequired(t: Trusted, id: string) {
    || (exists f | f in t.frozen :: f.0 == id)
    || id in t.agentEvidence || IsAgentSlot(id) || id == "candidate:changes"
    || exists c | c in t.checks :: IsCheckSlot(c, id)
  }

  lemma SlotsAreExact(t: Trusted, id: string)
    ensures id in RequiredSlots(t) <==> IsRequired(t, id)
  {
    hide IsAgentSlot, IsCheckSlot, CheckSlots, LABELS, RUN_SUFFIXES;
    AgentSlotsAreExact(id);
    CheckSlotsAreExact(t.checks, id);
  }

  // ---------------------------------------------------------------- gate reports

  /** The run passed: its agent and its response say so, each command it judged ended well, and no finding blocks. */
  ghost predicate HasPassed(run: AgentRun) {
    && run.agentDecision == Some("pass") && run.response.Some? && run.response.value.decision == "pass"
    && (forall f | f in run.findings :: !f.blocking && f.severity !in {"critical", "high"})
    && var judged := if run.commands.Some? then run.commands else run.commandsRun;
       judged.Some? ==> forall c | c in judged.value :: c == CommandResult("completed", 0)
  }

  predicate IsResponse(a: Artifact) {
    a.kind == "provider-response"
  }

  lemma {:induction false} ResponsesAreSelected(all: seq<Artifact>) returns (at: seq<nat>)
    ensures IsSelection(all, IsResponse, ProviderResponses(all), at)
  {
    hide IsSelection;
    at := [];
    NothingIsSelected(IsResponse);
    if all != [] {
      var rest := ResponsesAreSelected(all[1..]);
      at := SelectInFront(all, IsResponse, ProviderResponses(all[1..]), rest);
    }
  }

  /** What a report says of the gate's run, if there is one. */
  lemma ReportsAreExact(runId: string, sha: string, runs: map<string, AgentRun>, gate: string)
      returns (at: seq<nat>)
    ensures var report := GateReportOf(runId, sha, runs, gate);
      && report.runId == runId && report.gate == gate
      && (report.decision == "pass" <==>
            && gate in runs && HasPassed(runs[gate])
            && runs[gate].subjectSha == Some(sha) && runs[gate].response.value.subjectSha == sha)
      && (report.decision != "pass" ==> report.decision == "blocked")
      && (gate !in runs ==> report == GateReport(runId, gate, None, "blocked", [], [], []))
      && (gate in runs ==>
            && report.implementationSha == runs[gate].subjectSha && report.findings == runs[gate].findings
            && report.commands == (if runs[gate].commandsRun.Some? then runs[gate].commandsRun.value
                                   else if runs[gate].commands.Some? then runs[gate].commands.value else [])
            && IsSelection(runs[gate].artifacts, IsResponse, report.evidence, at))
  {
    at := [];
    if gate in runs {
      UsableMeans(runs[gate]);
      at := ResponsesAreSelected(runs[gate].artifacts);
    }
  }

  lemma UsableMeans(run: AgentRun)
    ensures Usable(run) <==> HasPassed(run)
  {
    assert forall c: CommandResult ::
        c == CommandResult("completed", 0) <==> c.status == "completed" && c.exitCode == 0;
  }

  // ---------------------------------------------------------------- the policy

  /** The first text is the second in lower case. */
  ghost predicate IsLowered(low: string, text: string) {
    |low| == |text| && forall i | 0 <= i < |text| ::
      if 'A' <= text[i] <= 'Z' then low[i] as int == text[i] as int + 32 else low[i] == text[i]
  }

  /** The referenced file is there and has the listed digest, in either case. */
  ghost predicate HasDigest(sha: Bytes -> string, store: Store, a: Artifact) {
    a.ref in store && IsLowered(sha(store[a.ref]), a.sha)
  }

  lemma DigestIsExact(sha: Bytes -> string, store: Store, a: Artifact)
    ensures FileMatches(sha, store, a) <==> HasDigest(sha, store, a)
  {
    if a.ref in store && IsLowered(sha(store[a.ref]), a.sha) {
      assert Lower(a.sha) == sha(store[a.ref]);
    }
  }

  ghost predicate IsFullCommit(o: Option<string>) {
    o.Some? && |o.value| == 40 && forall i | 0 <= i < 40 ::
      '0' <= o.value[i] <= '9' || 'a' <= o.value[i] <= 'f' || 'A' <= o.value[i] <= 'F'
  }

  /** The positions of the findings of one severity. */
  function Places(findings: seq<Finding>, severity: string): set<int> {
    set i | 0 <= i < |findings| && findings[i].severity == severity
  }

  lemma {:induction false} SeveritiesAreCounted(findings: seq<Finding>, severity: string)
    ensures CountSeverity(findings, severity) == |Places(findings, severity)|
  {
    if findings != [] {
      var front, last := findings[..|findings| - 1], |findings| - 1;
      SeveritiesAreCounted(front, severity);
      assert Places(findings, severity)
          == Places(front, severity) + if findings[last].severity == severity then {last} else {};
    }
  }

  /** There is a report for this gate that says pass about this commit and lists evidence, all of it retained. */
  ghost predicate IsReported(sha: Bytes -> string, store: Store, m: Manifest, gate: string) {
    m.gateReports.Some? && exists i | 0 <= i < |m.gateReports.value| ::
      && m.gateReports.value[i].Some?
      && var report := m.gateReports.value[i].value;
         && report.gate == gate && report.decision == "pass" && report.implementationSha == m.implementationSha
         && |report.evidence| > 0
         && forall k | 0 <= k < |report.evidence| :: HasDigest(sha, store, report.evidence[k])
  }

  ghost predicate MeetsNumbers(m: Manifest, p: Policy) {
    && m.findings.Some? && m.completeness.Some? && m.provenance.Some?
    && |Places(m.findings.value, "critical")| <= p.maxCritical && |Places(m.findings.value, "high")| <= p.maxHigh
    && m.completeness.value >= p.minCompleteness && m.provenance.value >= p.minProvenance
  }

  /** What the policy asks of a manifest. */
  ghost predicate MeetsPolicy(sha: Bytes -> string, store: Store, m: Manifest, p: Policy) {
    && m.identityOk && IsFullCommit(m.baseSha) && IsFullCommit(m.implementationSha) && m.decision == "pass"
    && m.evidence.Some? && |m.evidence.value| > 0
    && (forall i | 0 <= i < |m.evidence.value| ::
          && m.evidence.value[i].Some?
          && var a := m.evidence.value[i].value;
             a.kind != "" && a.ref != "" && a.sha != "" && HasDigest(sha, store, a))
    && m.gateReports.Some?
    && (forall i | 0 <= i < |m.gateReports.value| ::
          m.gateReports.value[i].Some? && m.gateReports.value[i].value.gate != "")
    && (forall i, j | 0 <= i < j < |m.gateReports.value|
                      && m.gateReports.value[i].Some? && m.gateReports.value[j].Some? ::
          m.gateReports.value[i].value.gate != m.gateReports.value[j].value.gate)
    && m.gateDecisions.Some?
    && (forall gate | gate in p.requiredDecisions ::
          gate in m.gateDecisions.value && m.gateDecisions.value[gate] == "pass" && IsReported(sha, store, m, gate))
    && MeetsNumbers(m, p)
  }

  lemma CommitsAreExact(o: Option<string>)
    ensures IsCommit(o) <==> IsFullCommit(o)
  {
    if o.Some? {
      assert forall i | 0 <= i < |o.value| :: o.value[i] in o.value;
    }
  }

  lemma NumbersAreExact(m: Manifest, p: Policy)
    ensures NumbersOk(m, p) <==> MeetsNumbers(m, p)
  {
    hide CountSeverity, Places;
    if m.findings.Some? {
      SeveritiesAreCounted(m.findings.value, "critical");
      SeveritiesAreCounted(m.findings.value, "high");
    }
  }

  lemma GoodReportsAreExact(sha: Bytes -> string, store: Store, m: Manifest, gate: string)
    requires m.gateReports.Some?
    ensures HasGoodReport(sha, store, m, m.gateReports.value, gate) <==> IsReported(sha, store, m, gate)
  {
    hide FileMatches, HasDigest;
    forall a
      ensures FileMatches(sha, store, a) <==> HasDigest(sha, store, a)
    {
      DigestIsExact(sha, store, a);
    }
    forall i | 0 <= i < |m.gateReports.value| && m.gateReports.value[i].Some?
      ensures GoodReport(sha, store, m, m.gateReports.value[i].value) <==>
                var report := m.gateReports.value[i].value;
                && report.decision == "pass" && report.implementationSha == m.implementationSha
                && |report.evidence| > 0
                && forall k | 0 <= k < |report.evidence| :: HasDigest(sha, store, report.evidence[k])
    {
      var evidence := m.gateReports.value[i].value.evidence;
      assert forall k | 0 <= k < |evidence| :: evidence[k] in evidence;
    }
  }

  /** The evaluator finds no failure exactly when the manifest meets the policy. */
  lemma PolicyIsExact(sha: Bytes -> string, store: Store, m: Manifest, p: Policy)
    ensures Passes(sha, store, m, p) <==> MeetsPolicy(sha, store, m, p)
  {
    hide IsCommit, IsFullCommit, FileMatches, HasDigest, NumbersOk, MeetsNumbers, HasGoodReport, IsReported;
    CommitsAreExact(m.baseSha);
    CommitsAreExact(m.implementationSha);
    NumbersAreExact(m, p);
    forall a
      ensures FileMatches(sha, store, a) <==> HasDigest(sha, store, a)
    {
      DigestIsExact(sha, store, a);
    }
    if m.gateReports.Some? {
      forall gate
        ensures HasGoodReport(sha, store, m, m.gateReports.value, gate) <==> IsReported(sha, store, m, gate)
      {
        GoodReportsAreExact(sha, store, m, gate);
      }
    }
  }

  // ---------------------------------------------------------------- the two measurements

  /** Output k is the one provenance result among the outputs. */
  ghost predicate IsOnlyReportAt(outputs: seq<Output>, k: nat) {
    && k < |outputs| && outputs[k].kind == "provenance-result"
    && forall j | 0 <= j < |outputs| && outputs[j].kind == "provenance-result" :: j == k
  }

  lemma {:induction false} NoReportSlot(outputs: seq<Output>)
    ensures ReportSlots(outputs) == [] <==> forall j | 0 <= j < |outputs| :: outputs[j].kind != "provenance-result"
  {
    if outputs != [] {
      NoReportSlot(outputs[1..]);
    }
  }

  lemma {:induction false} OneReportSlot(outputs: seq<Output>)
    ensures |ReportSlots(outputs)| == 1 <==> exists k: nat :: IsOnlyReportAt(outputs, k)
    ensures forall k: nat | IsOnlyReportAt(outputs, k) :: ReportSlots(outputs) == [outputs[k].id]
  {
    if outputs != [] {
      var rest := outputs[1..];
      OneReportSlot(rest);
      NoReportSlot(rest);
      forall k: nat | k < |rest|
        ensures outputs[0].kind != "provenance-result" ==> (IsOnlyReportAt(outputs, k + 1) <==> IsOnlyReportAt(rest, k))
      {
        assert forall j | 0 < j < |outputs| :: outputs[j] == rest[j - 1];
      }
      if outputs[0].kind == "provenance-result" {
        assert forall j | 0 < j < |outputs| :: outputs[j] == rest[j - 1];
        if ReportSlots(rest) == [] {
          assert IsOnlyReportAt(outputs, 0);
        } else {
          var j :| 0 <= j < |rest| && rest[j].kind == "provenance-result";
          assert outputs[j + 1].kind == "provenance-result";
        }
      } else {
        forall k: nat | IsOnlyReportAt(outputs, k)
          ensures k > 0 && IsOnlyReportAt(rest, k - 1)
        {
        }
        if |ReportSlots(rest)| == 1 {
          var k: nat :| IsOnlyReportAt(rest, k);
          assert IsOnlyReportAt(outputs, k + 1);
        }
      }
    }
  }

  /** The slot of the check's one provenance result retains this report. */
  ghost predicate HasReport(rd: Reader, store: Store, artifacts: seq<Option<Artifact>>, c: Bundles.Check,
                            report: Report) {
    exists k: nat, bytes | IsOnlyReportAt(c.outputs, k) ::
      IsRetained(rd.digests, store, artifacts, c.outputs[k].id, bytes) && rd.report(bytes) == Some(report)
  }

  lemma RetainedReportsAreExact(rd: Reader, store: Store, artifacts: seq<Option<Artifact>>, c: Bundles.Check,
                                report: Report)
    ensures RetainedReport(rd, store, artifacts, c) == Some(report) <==> HasReport(rd, store, artifacts, c, report)
  {
    hide Retained, IsRetained, ReportSlots;
    OneReportSlot(c.outputs);
    forall id, bytes
      ensures Retained(rd.digests, store, artifacts, id) == Some(bytes) <==>
                IsRetained(rd.digests, store, artifacts, id, bytes)
    {
      RetainedIsExact(rd.digests, store, artifacts, id, bytes);
    }
    if RetainedReport(rd, store, artifacts, c) == Some(report) {
      var k: nat :| IsOnlyReportAt(c.outputs, k);
      var bytes := Retained(rd.digests, store, artifacts, c.outputs[k].id).value;
      assert IsRetained(rd.digests, store, artifacts, c.outputs[k].id, bytes);
    }
  }

  /** The check retains a report that leads to this measurement and leaves no finding. */
  ghost predicate LeavesNoFinding(rd: Reader, store: Store, t: Trusted, artifacts: seq<Option<Artifact>>, sha: string,
                                  c: Bundles.Check, m: Measurement) {
    exists report | HasReport(rd, store, artifacts, c, report) ::
      && Measures(rd.digests, t.population, t.inputs, Some(report), m)
      && Sound(rd.digests, t.population, t.inputs, Some(report), sha, m)
  }

  lemma CleanIsExact(rd: Reader, store: Store, t: Trusted, artifacts: seq<Option<Artifact>>, sha: string,
                     c: Bundles.Check, m: Measurement)
    ensures MeasuredClean(rd.digests, t, RetainedReport(rd, store, artifacts, c), sha, m) <==>
              LeavesNoFinding(rd, store, t, artifacts, sha, c, m)
  {
    hide RetainedReport, HasReport, Measures;
    forall report
      ensures RetainedReport(rd, store, artifacts, c) == Some(report) <==> HasReport(rd, store, artifacts, c, report)
    {
      RetainedReportsAreExact(rd, store, artifacts, c, report);
    }
  }

  /** Check i is the last of this name. */
  ghost predicate IsLastCheckAt(checks: seq<Bundles.Check>, name: string, i: nat) {
    i < |checks| && checks[i].checkId == name && forall j | i < j < |checks| :: checks[j].checkId != name
  }

  lemma {:induction false} LastCheckIsExact(checks: seq<Bundles.Check>, name: string)
    ensures LastCheck(checks, name).Some? <==> exists i: nat :: IsLastCheckAt(checks, name, i)
    ensures forall i: nat | IsLastCheckAt(checks, name, i) :: LastCheck(checks, name) == Some(checks[i])
  {
    if checks != [] {
      var front, last := checks[..|checks| - 1], |checks| - 1;
      LastCheckIsExact(front, name);
      if checks[last].checkId == name {
        assert IsLastCheckAt(checks, name, last);
      } else {
        forall i: nat
          ensures IsLastCheckAt(checks, name, i) <==> IsLastCheckAt(front, name, i)
        {
          assert forall j | 0 <= j < last :: checks[j] == front[j];
        }
      }
    }
  }

  /**
   Each check of the two names leaves no finding, and the last one of either name leads to this measurement; the two
   names differ.
   */
  ghost predicate MeasuredAlike(rd: Reader, store: Store, t: Trusted, artifacts: seq<Option<Artifact>>, sha: string,
                                m: Measurement) {
    && t.provenanceCheck != "quality-fixture"
    && (forall c | c in t.checks && (c.checkId == t.provenanceCheck || c.checkId == "quality-fixture") ::
          exists n :: LeavesNoFinding(rd, store, t, artifacts, sha, c, n))
    && (exists i: nat | IsLastCheckAt(t.checks, t.provenanceCheck, i) ::
          LeavesNoFinding(rd, store, t, artifacts, sha, t.checks[i], m))
    && (exists i: nat | IsLastCheckAt(t.checks, "quality-fixture", i) ::
          LeavesNoFinding(rd, store, t, artifacts, sha, t.checks[i], m))
  }

  lemma MeasuredTwiceIsExact(rd: Reader, store: Store, t: Trusted, artifacts: seq<Option<Artifact>>, sha: string,
                             m: Measurement)
    ensures MeasuredTwice(rd, store, t, artifacts, sha, m) <==> MeasuredAlike(rd, store, t, artifacts, sha, m)
  {
    hide RetainedReport, LeavesNoFinding, LastCheck, MeasuredClean;
    forall c, n
      ensures MeasuredClean(rd.digests, t, RetainedReport(rd, store, artifacts, c), sha, n) <==>
                LeavesNoFinding(rd, store, t, artifacts, sha, c, n)
    {
      CleanIsExact(rd, store, t, artifacts, sha, c, n);
    }
    LastCheckIsExact(t.checks, t.provenanceCheck);
    LastCheckIsExact(t.checks, "quality-fixture");
  }

  // ---------------------------------------------------------------- the agents' sessions

  /** What an agent has retained: these bytes in its slots, and a clean capture that replays to this verdict. */
  ghost predicate Leaves(rd: Reader, store: Store, artifacts: seq<Option<Artifact>>, agent: string, slot: string,
                         stdout: Bytes, protocol: Bytes, capture: Adapter.Capture, e: Protocol.Expected,
                         v: Protocol.Verdict) {
    && IsRetained(rd.digests, store, artifacts, agent + ":stdout", stdout)
    && IsRetained(rd.digests, store, artifacts, agent + ":protocol", protocol)
    && IsRetained(rd.digests, store, artifacts, slot, rd.encode(v.responseText))
    && rd.capture(protocol) == Some(capture) && rd.expected(agent, capture) == Some(e)
    && capture.size <= 12_582_912 && |stdout| <= 4_194_304 && |capture.frames| <= 10_000
    && rd.codec.validHeader(capture.header)
    && capture.footer.status == Adapter.Completed && capture.footer.exitCode == Some(0)
    && !capture.footer.budgetExhausted
    && Adapter.Flatten(Adapter.ServerLines(capture.frames)) == stdout
    && Adapter.Replay(rd.codec, e, capture.frames) == Some(v)
  }

  ghost predicate AgentLeaves(rd: Reader, store: Store, artifacts: seq<Option<Artifact>>, agent: string, slot: string) {
    exists stdout, protocol, capture, e, v ::
      Leaves(rd, store, artifacts, agent, slot, stdout, protocol, capture, e, v)
  }

  lemma AgentsReplayExactly(rd: Reader, store: Store, artifacts: seq<Option<Artifact>>, agent: string, slot: string)
    ensures AgentReplayed(rd, store, artifacts, agent, slot) <==> AgentLeaves(rd, store, artifacts, agent, slot)
  {
    hide Retained, IsRetained, Adapter.Replay, Adapter.Flatten, Adapter.ServerLines;
    forall id, bytes
      ensures Retained(rd.digests, store, artifacts, id) == Some(bytes) <==>
                IsRetained(rd.digests, store, artifacts, id, bytes)
    {
      RetainedIsExact(rd.digests, store, artifacts, id, bytes);
    }
    var stdout, protocol, response := Retained(rd.digests, store, artifacts, agent + ":stdout"),
      Retained(rd.digests, store, artifacts, agent + ":protocol"), Retained(rd.digests, store, artifacts, slot);
    if AgentReplayed(rd, store, artifacts, agent, slot) {
      var capture := rd.capture(protocol.value).value;
      var e := rd.expected(agent, capture).value;
      var v := Adapter.ReplayCapture(rd.codec, e, capture, stdout.value).value;
      assert Leaves(rd, store, artifacts, agent, slot, stdout.value, protocol.value, capture, e, v);
    }
  }

  // ---------------------------------------------------------------- the bundle

  /** Every required slot is filled, every record describes its file, and no id or reference occurs twice. */
  ghost predicate IsComplete(d: Digests, store: Store, t: Trusted, artifacts: seq<Option<Artifact>>) {
    && (forall i | 0 <= i < |artifacts| :: artifacts[i].Some? && IsDescribed(d.sha, store, artifacts[i].value))
    && (forall i, j | 0 <= i < j < |artifacts| && artifacts[i].Some? && artifacts[j].Some? ::
          artifacts[i].value.id != artifacts[j].value.id && artifacts[i].value.ref != artifacts[j].value.ref)
    && forall id | IsRequired(t, id) ::
         exists i | 0 <= i < |artifacts| :: artifacts[i].Some? && artifacts[i].value.id == id
  }

  lemma CoverageIsExact(d: Digests, store: Store, t: Trusted, b: Bundle)
    ensures CoverageComplete(d, store, t, b) <==> IsComplete(d, store, t, b.artifacts)
  {
    hide ValidArtifact, IsDescribed, RequiredSlots, IsRequired;
    forall a
      ensures ValidArtifact(d.sha, store, a) <==> IsDescribed(d.sha, store, a)
    {
      ArtifactsAreExact(d.sha, store, a);
    }
    forall id
      ensures id in RequiredSlots(t) <==> IsRequired(t, id)
    {
      SlotsAreExact(t, id);
    }
    ChangesAreRequired(t);
    assert "candidate:changes" in RequiredSlots(t);
  }

  lemma ChangesAreRequired(t: Trusted)
    ensures IsRequired(t, "candidate:changes")
  {
    hide IsAgentSlot, IsCheckSlot;
  }

  ghost predicate IsAboutTask(t: Trusted, b: Bundle) {
    && b.schemaVersion == 2 && b.taskId == t.taskId && b.trustedBaseSha == t.baseSha
    && b.manifest.baseSha == Some(t.baseSha)
    && b.manifest.implementationSha.Some? && IsDigest(b.manifest.implementationSha.value, 40)
    && forall agent :: agent in b.runs <==> agent in AGENTS
  }

  /** The agents in the order in which the frozen task lists their responses. */
  const AGENT_ORDER: seq<string> := [
    "architect", "builder", "deterministic_ci", "contract_compatibility", "schema_integrity", "source_provenance",
    "data_quality", "security", "reliability", "independent_review"
  ]

  ghost predicate AllLeave(rd: Reader, store: Store, t: Trusted, artifacts: seq<Option<Artifact>>) {
    && |t.agentEvidence| == 10
    && forall i | 0 <= i < 10 :: AgentLeaves(rd, store, artifacts, AGENT_ORDER[i], t.agentEvidence[i])
  }

  /** The manifest repeats what its runs and the measurement say. */
  ghost predicate Declares(t: Trusted, b: Bundle, m: Measurement) {
    && b.manifest.implementationSha.Some? && AggregationMatches(b, b.manifest.implementationSha.value)
    && DeclaresMeasured(t, b, m) && b.coverageScope == Some("synthetic-regression")
    && b.measurements.Some? && b.measurements.value.scope == "synthetic-regression"
  }

  /** What a bundle has to be. */
  ghost predicate Qualifies(rd: Reader, store: Store, t: Trusted, b: Bundle, m: Measurement) {
    && IsAboutTask(t, b) && IsComplete(rd.digests, store, t, b.artifacts)
    && (forall i | 0 <= i < |t.frozen| :: IsCopy(rd.digests, t, b.artifacts, t.frozen[i].0, t.frozen[i].1))
    && b.manifest.implementationSha.Some?
    && MeasuredAlike(rd, store, t, b.artifacts, b.manifest.implementationSha.value, m)
    && AllLeave(rd, store, t, b.artifacts) && Declares(t, b, m)
    && MeetsPolicy(rd.digests.sha, store, b.manifest, t.policy)
  }

  lemma TaskIsExact(t: Trusted, b: Bundle)
    ensures SameTask(t, b) && b.manifest.implementationSha.Some? && IsHex(b.manifest.implementationSha.value, 40)
       <==> IsAboutTask(t, b)
  {
    hide IsHex, IsDigest, AGENTS, LABELS;
    if b.manifest.implementationSha.Some? {
      DigestsAreExact(b.manifest.implementationSha.value, 40);
    }
    forall agent
      ensures agent in Elements(LABELS) <==> agent in AGENTS
    {
      AgentsAreExact(agent);
    }
  }

  lemma AgentOrder()
    ensures LABELS == AGENT_ORDER && |LABELS| == 10
  {
  }

  lemma ReplaysAreExact(rd: Reader, store: Store, t: Trusted, artifacts: seq<Option<Artifact>>)
    ensures AllReplayed(rd, store, t, artifacts) <==> AllLeave(rd, store, t, artifacts)
  {
    hide LABELS, AGENT_ORDER, AgentReplayed, AgentLeaves;
    AgentOrder();
    forall i | 0 <= i < |LABELS| && |t.agentEvidence| == |LABELS|
      ensures AgentReplayed(rd, store, artifacts, LABELS[i], t.agentEvidence[i]) <==>
                AgentLeaves(rd, store, artifacts, AGENT_ORDER[i], t.agentEvidence[i])
    {
      AgentsReplayExactly(rd, store, artifacts, LABELS[i], t.agentEvidence[i]);
    }
  }

  lemma ScopeIsDeclared(t: Trusted, b: Bundle, m: Measurement)
    requires DeclaresMeasured(t, b, m)
    ensures b.coverageScope == Some("synthetic-regression")
    ensures b.measurements.Some? && b.measurements.value.scope == "synthetic-regression"
  {
    hide RequiredSlots, StrictlySorted;
  }

  /** A bundle passes exactly when it qualifies. */
  lemma BundleIsExact(rd: Reader, store: Store, t: Trusted, b: Bundle, otherChecks: bool, m: Measurement)
    ensures BundlePasses(rd, store, t, b, otherChecks, m) <==> otherChecks && Qualifies(rd, store, t, b, m)
  {
    hide SameTask, IsHex, IsAboutTask, MeasuredTwice, MeasuredAlike, CoverageComplete, IsComplete, IsCopied, IsCopy,
      AllReplayed, AllLeave, AggregationMatches, DeclaresMeasured, Passes, MeetsPolicy;
    TaskIsExact(t, b);
    CoverageIsExact(rd.digests, store, t, b);
    forall file | file in t.frozen
      ensures IsCopied(rd.digests, t, b.artifacts, file) <==> IsCopy(rd.digests, t, b.artifacts, file.0, file.1)
    {
      CopiesAreExact(rd.digests, t, b.artifacts, file);
    }
    if b.manifest.implementationSha.Some? {
      MeasuredTwiceIsExact(rd, store, t, b.artifacts, b.manifest.implementationSha.value, m);
    }
    ReplaysAreExact(rd, store, t, b.artifacts);
    if DeclaresMeasured(t, b, m) {
      ScopeIsDeclared(t, b, m);
    }
    PolicyIsExact(rd.digests.sha, store, b.manifest, t.policy);
  }
}
