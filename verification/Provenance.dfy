/**
 `runner.measure_provenance`: every claimed fact is derived again from the retained inputs, and the
 coverage claimed by a report is compared with the coverage that the derivation supports.
 */
module Provenance {
  import opened Wrappers
  import opened JsonValues
  import opened JsonPointer
  import opened Texts

  const SCOPE := "synthetic-regression"

  /** A population record; the ids and pointers are texts. */
  datatype FactDef = FactDef(factId: string, sourceRef: string, sourcePointer: string,
                             extractionRef: string, extractionPointer: string)

  /** None stands for a record of any other shape. */
  datatype Population = Population(id: string, records: seq<Option<FactDef>>)

  datatype Proof = Proof(factId: string, sourceSha: string, extractionSha: string,
                         sourcePointer: string, extractionPointer: string, valueSha: string)

  datatype Uncovered = Uncovered(factId: string, reason: string)

  datatype Report = Report(schemaVersion: int, subjectSha: string, populationId: string, scope: string,
                           populationSha: string, eligibleIds: seq<string>, coveredIds: seq<string>,
                           uncovered: seq<Uncovered>, records: seq<Proof>)

  datatype Measurement = Measurement(populationId: string, eligible: seq<string>, covered: seq<string>,
                                     uncovered: seq<string>, ratio: Option<real>)

  /** Hashing, canonical encoding and JSON reading, left open. */
  datatype Digests = Digests(sha: Bytes -> string, canonical: Json -> Bytes, parse: Bytes -> Option<Json>,
                             population: Population -> Bytes)

  // ---------------------------------------------------------------- shapes

  predicate IsLetterOrDigit(c: char) {
    '0' <= c <= '9' || 'a' <= c <= 'z' || 'A' <= c <= 'Z'
  }

  predicate IsId(text: string) {
    text != "" && IsLetterOrDigit(text[0]) && forall c | c in text :: IsLetterOrDigit(c) || c in {'.', '_', ':', '-'}
  }

  predicate AreIds(ids: seq<string>) {
    (forall id | id in ids :: IsId(id)) && forall i, j | 0 <= i < j < |ids| :: ids[i] != ids[j]
  }

  predicate ValidProof(p: Proof) {
    && IsId(p.factId) && IsHex(p.sourceSha, 64) && IsHex(p.extractionSha, 64) && IsHex(p.valueSha, 64)
    && p.sourcePointer != "" && p.sourcePointer[0] == '/'
    && p.extractionPointer != "" && p.extractionPointer[0] == '/'
  }

  /** `validate_provenance_record` finds no error. */
  predicate ValidReport(r: Report) {
    && r.schemaVersion == 2 && IsHex(r.subjectSha, 40) && IsHex(r.populationSha, 64) && IsId(r.populationId)
    && r.scope == SCOPE && AreIds(r.eligibleIds) && AreIds(r.coveredIds)
    && (forall p | p in r.records :: ValidProof(p))
    && (forall i, j | 0 <= i < j < |r.records| :: r.records[i].factId != r.records[j].factId)
    && (forall u | u in r.uncovered :: IsId(u.factId) && u.reason != "")
    && (forall i, j | 0 <= i < j < |r.uncovered| :: r.uncovered[i].factId != r.uncovered[j].factId)
  }

  // ---------------------------------------------------------------- what is measured

  predicate Defines(known: map<string, FactDef>, record: Option<FactDef>) {
    record.Some? && IsId(record.value.factId) && record.value.factId !in known
  }

  /** The usable records by fact id; the first record of an id is the one that counts. */
  function Definitions(records: seq<Option<FactDef>>): map<string, FactDef> {
    if records == [] then map[]
    else
      var known, last := Definitions(records[..|records| - 1]), records[|records| - 1];
      if Defines(known, last) then known[last.value.factId := last.value] else known
  }

  /** Every record is usable and brings a new fact id. */
  ghost predicate AllDefine(records: seq<Option<FactDef>>) {
    records == []
    || (&& AllDefine(records[..|records| - 1])
        && Defines(Definitions(records[..|records| - 1]), records[|records| - 1]))
  }

  function Lookup(d: Digests, inputs: map<string, Bytes>, ref: string, path: string): (r: Option<Json>) {
    if ref !in inputs then None
    else
      var document :- d.parse(inputs[ref]);
      Evaluate(document, path)
  }

  /** The proof the retained inputs support: source and extraction hold the same value. */
  function Derive(d: Digests, inputs: map<string, Bytes>, def: FactDef): (r: Option<Proof>) {
    var left :- Lookup(d, inputs, def.sourceRef, def.sourcePointer);
    var right :- Lookup(d, inputs, def.extractionRef, def.extractionPointer);
    if d.canonical(left) != d.canonical(right) then None
    else
      assert def.sourceRef in inputs && def.extractionRef in inputs;
      Some(Proof(def.factId, d.sha(inputs[def.sourceRef]), d.sha(inputs[def.extractionRef]),
                 def.sourcePointer, def.extractionPointer, d.sha(d.canonical(left))))
  }

  /** The claim is about a known fact and is exactly what deriving the fact again gives. */
  predicate Proven(d: Digests, inputs: map<string, Bytes>, defs: map<string, FactDef>, p: Proof) {
    p.factId in defs && Derive(d, inputs, defs[p.factId]) == Some(p)
  }

  /** The facts whose claims hold, in the order of the claims. */
  function ProvenFacts(d: Digests, inputs: map<string, Bytes>, defs: map<string, FactDef>, proofs: seq<Proof>)
      : seq<string>
  {
    if proofs == [] then []
    else
      var p := proofs[|proofs| - 1];
      ProvenFacts(d, inputs, defs, proofs[..|proofs| - 1]) + if Proven(d, inputs, defs, p) then [p.factId] else []
  }

  function UncoveredIds(us: seq<Uncovered>): seq<string> {
    seq(|us|, i requires 0 <= i < |us| => us[i].factId)
  }

  function Ratio(covered: nat, eligible: nat): Option<real> {
    if eligible == 0 then None else Some(covered as real / eligible as real)
  }

  /** Covered and uncovered divide the eligible ids, each listed once and in order. */
  ghost predicate Partitions(m: Measurement) {
    && StrictlySorted(m.eligible) && StrictlySorted(m.covered) && StrictlySorted(m.uncovered)
    && Elements(m.covered) + Elements(m.uncovered) == Elements(m.eligible)
    && Elements(m.covered) !! Elements(m.uncovered)
    && m.ratio == Ratio(|m.covered|, |m.eligible|)
  }

  /** Nothing is wrong with the population, the report, its identity, or any of its claims. */
  ghost predicate Sound(d: Digests, population: Option<Population>, inputs: map<string, Bytes>,
                        report: Option<Report>, subjectSha: string, m: Measurement) {
    && population.Some? && AllDefine(population.value.records) && population.value.records != []
    && report.Some? && ValidReport(report.value)
    && var r, defs := report.value, Definitions(population.value.records);
    && r.subjectSha == subjectSha && r.populationId == population.value.id
    && r.populationSha == d.sha(d.population(population.value))
    && r.eligibleIds == m.eligible && r.coveredIds == m.covered
    && (forall p | p in r.records :: Proven(d, inputs, defs, p))
    && Sort(UncoveredIds(r.uncovered)) == m.uncovered
  }

  lemma {:induction false} WithoutRemoves(ids: seq<string>, remove: set<string>)
    ensures Elements(Without(ids, remove)) == Elements(ids) - remove
    ensures StrictlySorted(ids) ==> StrictlySorted(Without(ids, remove))
  {
    if ids != [] {
      var rest := Without(ids[1..], remove);
      WithoutRemoves(ids[1..], remove);
      assert ids == [ids[0]] + ids[1..];
      assert Elements(ids) == {ids[0]} + Elements(ids[1..]);
      if ids[0] !in remove {
        assert Elements([ids[0]] + rest) == {ids[0]} + Elements(rest);
        forall y | y in rest && StrictlySorted(ids)
          ensures Less(ids[0], y)
        {
          assert y in Elements(rest) && y in ids[1..];
        }
      }
    }
  }

  /** First pass: the definitions, with the order in which their ids were first seen. */
  method Define(records: seq<Option<FactDef>>) returns (defs: map<string, FactDef>, ids: seq<string>, clean: bool)
    ensures defs == Definitions(records) && Elements(ids) == defs.Keys && Distinct(ids)
    ensures clean <==> AllDefine(records)
  {
    hide IsId;
    hide Distinct;
    defs, ids, clean := map[], [], true;
    NothingIsDistinct();
    for i := 0 to |records|
      invariant defs == Definitions(records[..i]) && Elements(ids) == defs.Keys && Distinct(ids)
      invariant clean <==> AllDefine(records[..i])
    {
      assert records[..i + 1][..i] == records[..i];
      if !Defines(defs, records[i]) {
        clean := false;
      } else {
        var fid := records[i].value.factId;
        AppendDistinct(ids, fid);
        defs := defs[fid := records[i].value];
        ids := ids + [fid];
      }
    }
    assert records[..|records|] == records;
  }

  lemma NothingIsDistinct()
    ensures Distinct<string>([])
  {
  }

  /** Second pass: derive every claimed fact again; `covered` collects the claims that hold. */
  method Replay(d: Digests, inputs: map<string, Bytes>, defs: map<string, FactDef>, proofs: seq<Proof>)
      returns (covered: seq<string>, clean: bool)
    requires forall i, j | 0 <= i < j < |proofs| :: proofs[i].factId != proofs[j].factId
    ensures covered == ProvenFacts(d, inputs, defs, proofs)
    ensures clean <==> forall p | p in proofs :: Proven(d, inputs, defs, p)
  {
    hide Derive;
    covered, clean := [], true;
    var seen := {};
    for i := 0 to |proofs|
      invariant covered == ProvenFacts(d, inputs, defs, proofs[..i])
      invariant forall fid | fid in seen :: exists j | 0 <= j < i :: proofs[j].factId == fid
      invariant clean <==> forall j | 0 <= j < i :: Proven(d, inputs, defs, proofs[j])
    {
      var p := proofs[i];
      assert proofs[..i + 1][..i] == proofs[..i];
      if p.factId !in defs || p.factId in seen {
        clean := false;
      } else {
        seen := seen + {p.factId};
        if Derive(d, inputs, defs[p.factId]) == Some(p) {
          covered := covered + [p.factId];
        } else {
          clean := false;
        }
      }
    }
    assert proofs[..|proofs|] == proofs;
  }

  lemma {:induction false} ProvenFactsAre(d: Digests, inputs: map<string, Bytes>, defs: map<string, FactDef>,
                                          proofs: seq<Proof>)
    requires forall i, j | 0 <= i < j < |proofs| :: proofs[i].factId != proofs[j].factId
    ensures var covered := ProvenFacts(d, inputs, defs, proofs);
            && Distinct(covered) && Elements(covered) <= defs.Keys
            && forall fid :: fid in covered <==> exists p | p in proofs :: p.factId == fid && Proven(d, inputs, defs, p)
  {
    hide Derive;
    if proofs != [] {
      var front, p := proofs[..|proofs| - 1], proofs[|proofs| - 1];
      ProvenFactsAre(d, inputs, defs, front);
      assert proofs == front + [p];
      forall q | q in front
        ensures q.factId != p.factId
      {
        var i :| 0 <= i < |front| && front[i] == q;
        assert proofs[i] == q;
      }
      AppendDistinct(ProvenFacts(d, inputs, defs, front), p.factId);
    }
  }

  /** The claims that are put to the test: those of a valid report. */
  function Claims(report: Option<Report>): seq<Proof> {
    if report.Some? && ValidReport(report.value) then report.value.records else []
  }

  function TrustedPopulation(population: Option<Population>): Population {
    if population.Some? then population.value else Population("invalid", [])
  }

  /** m lists exactly the defined facts as eligible, and as covered exactly those with a claim that holds. */
  ghost predicate Measures(d: Digests, population: Option<Population>, inputs: map<string, Bytes>,
                           report: Option<Report>, m: Measurement) {
    var trusted := TrustedPopulation(population);
    var defs := Definitions(trusted.records);
    && Partitions(m) && m.populationId == trusted.id
    && Elements(m.eligible) == defs.Keys
    && forall fid :: fid in m.covered <==>
         exists p | p in Claims(report) :: p.factId == fid && Proven(d, inputs, defs, p)
  }

  /** There is one such measurement. */
  lemma MeasurementIsUnique(d: Digests, population: Option<Population>, inputs: map<string, Bytes>,
                            report: Option<Report>, m: Measurement, n: Measurement)
    requires Measures(d, population, inputs, report, m) && Measures(d, population, inputs, report, n)
    ensures m == n
  {
    hide Proven;
    hide Claims;
    hide Definitions;
    hide StrictlySorted;
    SortedIsUnique(m.eligible, n.eligible);
    assert Elements(m.covered) == Elements(n.covered);
    SortedIsUnique(m.covered, n.covered);
    assert Elements(m.uncovered) == Elements(m.eligible) - Elements(m.covered);
    assert Elements(n.uncovered) == Elements(n.eligible) - Elements(n.covered);
    SortedIsUnique(m.uncovered, n.uncovered);
  }

  method MeasureProvenance(d: Digests, population: Option<Population>, inputs: map<string, Bytes>,
                           report: Option<Report>, subjectSha: string) returns (m: Measurement, clean: bool)
    ensures Partitions(m)
    ensures Measures(d, population, inputs, report, m)
    ensures clean <==> Sound(d, population, inputs, report, subjectSha, m)
  {
    hide ValidReport;
    hide Proven;
    var trusted := TrustedPopulation(population);
    var defs, ids, defined := Define(trusted.records);
    var eligible := Sort(ids);
    SortSorts(ids);
    clean := population.Some? && defined && report.Some? && ValidReport(report.value);
    var claimed := Claims(report);
    ClaimedOnce(report);
    var covered, proven := Replay(d, inputs, defs, claimed);
    ProvenFactsAre(d, inputs, defs, claimed);
    clean := clean && proven;
    SortSorts(covered);
    ghost var before := covered;
    covered := Sort(covered);
    assert forall fid :: fid in covered <==> fid in before by {
      assert forall fid :: fid in covered <==> fid in Elements(covered);
      assert forall fid :: fid in before <==> fid in Elements(before);
    }
    var uncovered := Without(eligible, Elements(covered));
    WithoutRemoves(eligible, Elements(covered));
    m := Measurement(trusted.id, eligible, covered, uncovered, Ratio(|covered|, |eligible|));
    if clean {
      var r := report.value;
      clean := r.subjectSha == subjectSha && r.populationId == trusted.id
               && r.populationSha == d.sha(d.population(trusted))
               && r.eligibleIds == eligible && r.coveredIds == covered
               && Sort(UncoveredIds(r.uncovered)) == uncovered
               && eligible != [];
    }
    EmptyPopulation(trusted.records, eligible);
  }

  lemma ClaimedOnce(report: Option<Report>)
    ensures forall i, j | 0 <= i < j < |Claims(report)| :: Claims(report)[i].factId != Claims(report)[j].factId
  {
  }

  lemma EmptyPopulation(records: seq<Option<FactDef>>, eligible: seq<string>)
    requires Elements(eligible) == Definitions(records).Keys
    ensures AllDefine(records) ==> (eligible == [] <==> records == [])
  {
    if records != [] && AllDefine(records) {
      var last := |records| - 1;
      assert Defines(Definitions(records[..last]), records[last]);
      assert records[last].value.factId in Elements(eligible);
    }
    assert eligible != [] ==> eligible[0] in Elements(eligible);
  }

  /** The ratio is 1 exactly when nothing eligible is left uncovered. */
  lemma RatioIsOne(m: Measurement)
    requires Partitions(m)
    ensures m.ratio == Some(1.0) <==> m.eligible != [] && m.uncovered == []
    ensures m.ratio.Some? ==> 0.0 <= m.ratio.value <= 1.0
  {
    SortedIsDistinct(m.eligible);
    SortedIsDistinct(m.covered);
    SortedIsDistinct(m.uncovered);
    DistinctCount(m.eligible);
    DistinctCount(m.covered);
    DistinctCount(m.uncovered);
    assert |Elements(m.eligible)| == |Elements(m.covered)| + |Elements(m.uncovered)|;
    if m.eligible != [] {
      QuotientIsOne(|m.covered|, |m.eligible|);
    }
  }

  lemma QuotientIsOne(c: nat, n: nat)
    requires c <= n && n > 0
    ensures 0.0 <= c as real / n as real <= 1.0
    ensures c as real / n as real == 1.0 <==> c == n
  {
  }

  // ---------------------------------------------------------------- spelled out on the fields

  ghost predicate IsName(text: string) {
    && text != "" && text[0] !in {'.', '_', ':', '-'}
    && forall i | 0 <= i < |text| :: '0' <= text[i] <= '9' || 'a' <= text[i] <= 'z' || 'A' <= text[i] <= 'Z'
                                    || text[i] in {'.', '_', ':', '-'}
  }

  ghost predicate IsDigest(text: string, n: nat) {
    |text| == n && forall i | 0 <= i < n :: '0' <= text[i] <= '9' || 'a' <= text[i] <= 'f'
  }

  ghost predicate AreNames(ids: seq<string>) {
    (forall i | 0 <= i < |ids| :: IsName(ids[i])) && forall i, j | 0 <= i < j < |ids| :: ids[i] != ids[j]
  }

  /** A report of the second version, about this scope, with names, digests and pointers in their places, each once. */
  ghost predicate IsReport(r: Report) {
    && r.schemaVersion == 2 && r.scope == "synthetic-regression" && IsName(r.populationId)
    && IsDigest(r.subjectSha, 40) && IsDigest(r.populationSha, 64) && AreNames(r.eligibleIds) && AreNames(r.coveredIds)
    && (forall i | 0 <= i < |r.records| ::
          var p := r.records[i];
          && IsName(p.factId) && IsDigest(p.sourceSha, 64) && IsDigest(p.extractionSha, 64) && IsDigest(p.valueSha, 64)
          && "/" <= p.sourcePointer && "/" <= p.extractionPointer)
    && (forall i, j | 0 <= i < j < |r.records| :: r.records[i].factId != r.records[j].factId)
    && (forall i | 0 <= i < |r.uncovered| :: IsName(r.uncovered[i].factId) && r.uncovered[i].reason != "")
    && (forall i, j | 0 <= i < j < |r.uncovered| :: r.uncovered[i].factId != r.uncovered[j].factId)
  }

  lemma NamesAreExact(text: string)
    ensures IsId(text) <==> IsName(text)
  {
    assert forall i | 0 <= i < |text| :: text[i] in text;
  }

  lemma DigestsAreExact(text: string, n: nat)
    ensures IsHex(text, n) <==> IsDigest(text, n)
  {
    assert forall i | 0 <= i < |text| :: text[i] in text;
  }

  lemma NameListsAreExact(ids: seq<string>)
    ensures AreIds(ids) <==> AreNames(ids)
  {
    hide IsId, IsName;
    forall i | 0 <= i < |ids|
      ensures ids[i] in ids && (IsId(ids[i]) <==> IsName(ids[i]))
    {
      NamesAreExact(ids[i]);
    }
  }

  lemma ReportsAreExact(r: Report)
    ensures ValidReport(r) <==> IsReport(r)
  {
    hide IsId, IsName, IsHex, IsDigest, AreIds, AreNames;
    NamesAreExact(r.populationId);
    DigestsAreExact(r.subjectSha, 40);
    DigestsAreExact(r.populationSha, 64);
    NameListsAreExact(r.eligibleIds);
    NameListsAreExact(r.coveredIds);
    forall i | 0 <= i < |r.records|
      ensures r.records[i] in r.records
      ensures ValidProof(r.records[i]) <==>
                var p := r.records[i];
                && IsName(p.factId) && IsDigest(p.sourceSha, 64) && IsDigest(p.extractionSha, 64)
                && IsDigest(p.valueSha, 64) && "/" <= p.sourcePointer && "/" <= p.extractionPointer
    {
      ProofsAreExact(r.records[i]);
    }
    forall i | 0 <= i < |r.uncovered|
      ensures r.uncovered[i] in r.uncovered && (IsId(r.uncovered[i].factId) <==> IsName(r.uncovered[i].factId))
    {
      NamesAreExact(r.uncovered[i].factId);
    }
  }

  lemma ProofsAreExact(p: Proof)
    ensures ValidProof(p) <==>
      && IsName(p.factId) && IsDigest(p.sourceSha, 64) && IsDigest(p.extractionSha, 64)
      && IsDigest(p.valueSha, 64) && "/" <= p.sourcePointer && "/" <= p.extractionPointer
  {
    hide IsId, IsName, IsHex, IsDigest;
    NamesAreExact(p.factId);
    DigestsAreExact(p.sourceSha, 64);
    DigestsAreExact(p.extractionSha, 64);
    DigestsAreExact(p.valueSha, 64);
  }

  /** Record i is the first usable one of this fact. */
  ghost predicate IsDefinedAt(records: seq<Option<FactDef>>, fid: string, i: nat) {
    && i < |records| && records[i].Some? && records[i].value.factId == fid && IsName(fid)
    && forall j | 0 <= j < i && records[j].Some? :: records[j].value.factId != fid
  }

  lemma {:induction false} DefinitionsAreFirst(records: seq<Option<FactDef>>, fid: string)
    ensures fid in Definitions(records) <==> exists i: nat :: IsDefinedAt(records, fid, i)
    ensures forall i: nat | IsDefinedAt(records, fid, i) :: Definitions(records)[fid] == records[i].value
  {
    hide IsId, IsName;
    if records != [] {
      var front, last := records[..|records| - 1], |records| - 1;
      DefinitionsAreFirst(front, fid);
      NamesAreExact(fid);
      forall i: nat
        ensures i < last ==> (IsDefinedAt(records, fid, i) <==> IsDefinedAt(front, fid, i))
      {
        assert i < last ==> records[i] == front[i];
        assert forall j | 0 <= j < i < last :: records[j] == front[j];
      }
      if fid in Definitions(front) {
        var i: nat :| IsDefinedAt(front, fid, i);
        assert IsDefinedAt(records, fid, i);
        assert !IsDefinedAt(records, fid, last);
      } else if records[last].Some? && records[last].value.factId == fid && IsName(fid) {
        UndefinedBefore(front, fid);
        assert IsDefinedAt(records, fid, last);
      }
    }
  }

  /** A usable fact without a definition was never mentioned. */
  lemma {:induction false} UndefinedBefore(records: seq<Option<FactDef>>, fid: string)
    requires IsName(fid) && fid !in Definitions(records)
    ensures forall j | 0 <= j < |records| && records[j].Some? :: records[j].value.factId != fid
  {
    hide IsId, IsName;
    NamesAreExact(fid);
    if records != [] {
      UndefinedBefore(records[..|records| - 1], fid);
    }
  }

  /** Every record is usable, and no two define the same fact. */
  ghost predicate AreUsable(records: seq<Option<FactDef>>) {
    && (forall i | 0 <= i < |records| :: records[i].Some? && IsName(records[i].value.factId))
    && (forall i, j | 0 <= i < j < |records| && records[i].Some? && records[j].Some? ::
          records[i].value.factId != records[j].value.factId)
  }

  lemma {:induction false} UsableIsExact(records: seq<Option<FactDef>>)
    ensures AllDefine(records) <==> AreUsable(records)
  {
    hide IsId, IsName;
    if records != [] {
      var front, last := records[..|records| - 1], records[|records| - 1];
      UsableIsExact(front);
      if last.Some? {
        NamesAreExact(last.value.factId);
        DefinitionsAreFirst(front, last.value.factId);
        if IsName(last.value.factId) && last.value.factId !in Definitions(front) {
          UndefinedBefore(front, last.value.factId);
        }
      }
      assert forall i | 0 <= i < |front| :: front[i] == records[i];
    }
  }

  /** The text spells a path to this node. */
  ghost predicate LeadsTo(document: Json, text: string, node: Json) {
    exists path :: path != [] && PathText(path) == text && NodeAt(document, path) == Some(node)
  }

  /** The retained file can be read, and its pointer leads to this value. */
  ghost predicate Retains(d: Digests, inputs: map<string, Bytes>, ref: string, text: string, value: Json) {
    ref in inputs && d.parse(inputs[ref]).Some? && LeadsTo(d.parse(inputs[ref]).value, text, value)
  }

  /**
   The claim states what the two files of the fact retain: the same canonical value in both, its digest, the digests
   of the files and the two pointers.
   */
  ghost predicate Restates(d: Digests, inputs: map<string, Bytes>, def: FactDef, p: Proof, left: Json, right: Json) {
    && Retains(d, inputs, def.sourceRef, def.sourcePointer, left)
    && Retains(d, inputs, def.extractionRef, def.extractionPointer, right)
    && d.canonical(left) == d.canonical(right)
    && p.factId == def.factId && p.sourceSha == d.sha(inputs[def.sourceRef])
    && p.extractionSha == d.sha(inputs[def.extractionRef]) && p.sourcePointer == def.sourcePointer
    && p.extractionPointer == def.extractionPointer && p.valueSha == d.sha(d.canonical(left))
  }

  lemma LookupIsExact(d: Digests, inputs: map<string, Bytes>, ref: string, text: string, value: Json)
    ensures Lookup(d, inputs, ref, text) == Some(value) <==> Retains(d, inputs, ref, text, value)
  {
    hide Evaluate, LeadsTo;
    if ref in inputs {
      var document := d.parse(inputs[ref]);
      if document.Some? {
        LeadsIsExact(document.value, text, value);
        assert Lookup(d, inputs, ref, text) == Evaluate(document.value, text);
      }
    }
  }

  lemma LeadsIsExact(document: Json, text: string, node: Json)
    ensures Evaluate(document, text) == Some(node) <==> LeadsTo(document, text, node)
  {
    hide PathText, NodeAt, Evaluate;
    PointerIsExact(document, text, node);
    if LeadsTo(document, text, node) {
      var path :| path != [] && PathText(path) == text && NodeAt(document, path) == Some(node);
      assert exists path :: path != [] && PathText(path) == text && NodeAt(document, path) == Some(node);
    }
  }

  /** A claim holds exactly when its fact is defined and both of its files retain what it states. */
  lemma ProvenIsExact(d: Digests, inputs: map<string, Bytes>, defs: map<string, FactDef>, p: Proof)
    ensures Proven(d, inputs, defs, p) <==>
              p.factId in defs && exists left, right :: Restates(d, inputs, defs[p.factId], p, left, right)
  {
    hide Lookup, Retains;
    if p.factId in defs {
      var def := defs[p.factId];
      forall value
        ensures Lookup(d, inputs, def.sourceRef, def.sourcePointer) == Some(value) <==>
                  Retains(d, inputs, def.sourceRef, def.sourcePointer, value)
        ensures Lookup(d, inputs, def.extractionRef, def.extractionPointer) == Some(value) <==>
                  Retains(d, inputs, def.extractionRef, def.extractionPointer, value)
      {
        LookupIsExact(d, inputs, def.sourceRef, def.sourcePointer, value);
        LookupIsExact(d, inputs, def.extractionRef, def.extractionPointer, value);
      }
      var left, right := Lookup(d, inputs, def.sourceRef, def.sourcePointer),
        Lookup(d, inputs, def.extractionRef, def.extractionPointer);
      if Proven(d, inputs, defs, p) {
        assert Restates(d, inputs, def, p, left.value, right.value);
      }
      forall a, b | Restates(d, inputs, def, p, a, b)
        ensures left == Some(a) && right == Some(b)
      {
        assert Retains(d, inputs, def.sourceRef, def.sourcePointer, a);
        assert Retains(d, inputs, def.extractionRef, def.extractionPointer, b);
      }
    }
  }

  /** The claim restates what the first usable record of its fact points to. */
  ghost predicate Holds(d: Digests, population: Population, inputs: map<string, Bytes>, p: Proof) {
    exists i: nat, left, right ::
      IsDefinedAt(population.records, p.factId, i) && Restates(d, inputs, population.records[i].value, p, left, right)
  }

  lemma HoldsIsExact(d: Digests, population: Population, inputs: map<string, Bytes>, p: Proof)
    ensures Proven(d, inputs, Definitions(population.records), p) <==> Holds(d, population, inputs, p)
  {
    hide Proven, Restates, Definitions, IsDefinedAt;
    var defs := Definitions(population.records);
    DefinitionsAreFirst(population.records, p.factId);
    ProvenIsExact(d, inputs, defs, p);
    if Proven(d, inputs, defs, p) {
      var i: nat :| IsDefinedAt(population.records, p.factId, i);
      var left, right :| Restates(d, inputs, defs[p.factId], p, left, right);
      InsideRecords(population.records, p.factId, i);
      assert Restates(d, inputs, population.records[i].value, p, left, right);
    }
  }

  lemma InsideRecords(records: seq<Option<FactDef>>, fid: string, i: nat)
    requires IsDefinedAt(records, fid, i)
    ensures i < |records| && records[i].Some?
  {
  }

  /**
   What a measurement says: eligible are the facts that a record defines, covered those with a claim in a
   well-formed report that holds, uncovered the others, all in ascending order; and the ratio is theirs.
   */
  lemma MeasurementMeans(d: Digests, population: Population, inputs: map<string, Bytes>, report: Report, m: Measurement)
    requires Measures(d, Some(population), inputs, Some(report), m)
    ensures forall fid :: fid in m.eligible <==> exists i: nat :: IsDefinedAt(population.records, fid, i)
    ensures forall fid :: fid in m.covered <==>
              IsReport(report) && exists p | p in report.records :: p.factId == fid && Holds(d, population, inputs, p)
    ensures forall fid :: fid in m.uncovered <==> fid in m.eligible && fid !in m.covered
    ensures StrictlySorted(m.eligible) && StrictlySorted(m.covered) && StrictlySorted(m.uncovered)
    ensures m.eligible != [] ==> m.ratio == Some(|m.covered| as real / |m.eligible| as real)
  {
    hide Proven, Definitions, IsDefinedAt, Holds, ValidReport, IsReport, StrictlySorted;
    ReportsAreExact(report);
    forall fid
      ensures fid in m.eligible <==> exists i: nat :: IsDefinedAt(population.records, fid, i)
    {
      DefinitionsAreFirst(population.records, fid);
      assert fid in m.eligible <==> fid in Elements(m.eligible);
    }
    forall p
      ensures Proven(d, inputs, Definitions(population.records), p) <==> Holds(d, population, inputs, p)
    {
      HoldsIsExact(d, population, inputs, p);
    }
    forall fid
      ensures fid in m.uncovered <==> fid in m.eligible && fid !in m.covered
    {
      assert fid in Elements(m.uncovered) <==> fid in Elements(m.eligible) && fid !in Elements(m.covered);
    }
  }

  /** And when it leaves no finding. */
  lemma SoundMeans(d: Digests, population: Population, inputs: map<string, Bytes>, report: Report, subjectSha: string,
                   m: Measurement)
    requires Measures(d, Some(population), inputs, Some(report), m)
    ensures Sound(d, Some(population), inputs, Some(report), subjectSha, m) <==>
      && AreUsable(population.records) && population.records != [] && IsReport(report)
      && report.subjectSha == subjectSha && report.populationId == population.id
      && report.populationSha == d.sha(d.population(population))
      && report.eligibleIds == m.eligible && report.coveredIds == m.covered
      && (forall p | p in report.records :: Holds(d, population, inputs, p))
      && Elements(UncoveredIds(report.uncovered)) == Elements(m.uncovered)
  {
    hide Proven, Definitions, Holds, ValidReport, AllDefine, AreUsable;
    ReportsAreExact(report);
    UsableIsExact(population.records);
    forall p
      ensures Proven(d, inputs, Definitions(population.records), p) <==> Holds(d, population, inputs, p)
    {
      HoldsIsExact(d, population, inputs, p);
    }
    if IsReport(report) {
      ListedOnce(report, m.uncovered);
    }
  }

  /** The uncovered ids of a report, put in order, are a given ascending list exactly when they are the same ids. */
  lemma ListedOnce(report: Report, ids: seq<string>)
    requires IsReport(report) && StrictlySorted(ids)
    ensures Sort(UncoveredIds(report.uncovered)) == ids <==> Elements(UncoveredIds(report.uncovered)) == Elements(ids)
  {
    hide StrictlySorted, IsName, IsDigest, AreNames;
    var listed := UncoveredIds(report.uncovered);
    assert Distinct(listed);
    SortSorts(listed);
    if Elements(listed) == Elements(ids) {
      SortedIsUnique(Sort(listed), ids);
    }
  }

  /**
   With no finding the covered facts are exactly the claimed ones, each derived again with equal values,
   hashes and pointers; and the ratio is 1 exactly when every fact of the population has a claim.
   */
  lemma CoverageIsExact(d: Digests, population: Option<Population>, inputs: map<string, Bytes>,
                        report: Option<Report>, subjectSha: string, m: Measurement)
    requires Measures(d, population, inputs, report, m) && Sound(d, population, inputs, report, subjectSha, m)
    ensures forall fid :: fid in m.covered <==> exists p | p in report.value.records :: p.factId == fid
    ensures population.Some? && forall p | p in report.value.records :: Holds(d, population.value, inputs, p)
    ensures m.ratio == Some(1.0)
       <==> forall fid | fid in Definitions(population.value.records) ::
              exists p | p in report.value.records :: p.factId == fid
  {
    hide Proven;
    hide ValidReport;
    hide Definitions;
    hide Holds;
    var r := report.value;
    forall p | p in r.records
      ensures Holds(d, population.value, inputs, p)
    {
      HoldsIsExact(d, population.value, inputs, p);
    }
    assert Elements(m.eligible) == Definitions(population.value.records).Keys;
    EmptyPopulation(population.value.records, m.eligible);
    RatioIsOne(m);
    if m.uncovered == [] {
      assert Elements(m.covered) == Elements(m.eligible);
      forall fid | fid in Definitions(population.value.records)
        ensures exists p | p in r.records :: p.factId == fid
      {
        assert fid in Elements(m.covered);
      }
    } else {
      var fid := m.uncovered[0];
      assert fid in Elements(m.uncovered) && fid !in Elements(m.covered) && fid in Elements(m.eligible);
    }
  }
}
