/**
 `run_capture`: a finite run over two banks with budgets for requests, bytes, time and pacing. Whatever the
 servers, the clock, the files and an impatient operator do, the budgets hold and the summary is valid.
 */
module Canary {
  import opened Wrappers
  import opened Texts

  const BANK_REQUESTS := 58
  const GLOBAL_REQUESTS := 116
  const PAGES := 10
  const RESPONSE_BYTES := 20_000_000
  const BANK_BYTES := 100_000_000
  const BANK_SECONDS := 900.0
  const RUN_SECONDS := 1790.0
  const START_INTERVAL := 1.0
  const CATALOG_BRANCHES := 4
  const MAX_REQUIRED := 6

  const STOP_CODES: set<string> := {
    "INSPECTION_FAILURE", "CANCELLED", "VALIDATION", "NOT_FOUND", "INVALID_INPUT", "AMBIGUOUS", "PAGE_LIMIT",
    "PAGINATION", "SELECTOR", "IDENTITY", "FETCHED_AT", "CAPABILITIES", "DEADLINE", "REQUEST_LIMIT", "BYTE_LIMIT",
    "GRAPH", "CATALOG_MEMBERSHIP", "APPLICABILITY", "VEHICLE_MEMBERSHIP", "ARTICLE_MEMBERSHIP",
    "RESOURCE_MEMBERSHIP", "RESOURCE_CONTENT", "PROCEDURE_CONTENT", "SECRET_INCIDENT", "OUTPUT_FAILURE",
    "CONNECT_TLS", "REDIRECT", "FRAMING", "INTERRUPTED", "CLEANUP", "TRANSPORT_PROTOCOL", "UPSTREAM_UNAVAILABLE",
    "INVALID_UPSTREAM_RESPONSE", "RATE_LIMITED", "UNAUTHORIZED", "FORBIDDEN", "TRANSPORT", "DNS", "TLS", "CONNECT",
    "READ"
  }

  const INCOMPLETE_CODES: set<string> := {
    "DEADLINE", "BYTE_LIMIT", "PAGE_LIMIT", "OUTPUT_FAILURE", "CONNECT_TLS", "DNS", "TLS", "CONNECT", "READ"
  }

  const SHARED_CODES: set<string> := {"SECRET_INCIDENT", "OUTPUT_FAILURE", "CLEANUP", "CANCELLED", "INSPECTION_FAILURE"}

  predicate IsAllowed(code: string) {
    code in STOP_CODES
  }

  predicate IsShared(code: string) {
    code in SHARED_CODES
  }

  /** What one bank leaves for the next is itself an allowed code. */
  lemma SharedCodesAreAllowed(code: string)
    requires IsShared(code)
    ensures IsAllowed(code)
  {
    assert SHARED_CODES <= STOP_CODES;
  }

  lemma OutputFailureIsShared()
    ensures IsShared("OUTPUT_FAILURE") && IsAllowed("OUTPUT_FAILURE")
  {
  }

  // ---------------------------------------------------------------- enrollment

  datatype Role = Body | Asset | Labor

  /** How the bytes are pinned: by their hash, or by an attestation when they are seen for the first time. */
  datatype Proof = Frozen(sha: string) | FirstObserved(attestationRef: string)

  datatype Resource = Resource(ref: string, role: Role, mediaType: string, required: bool, sourceRevision: string,
                               expectedBytes: int, proof: Proof)

  /** What the enrollment of one bank says about its resources. */
  datatype Enrollment = Enrollment(items: seq<Resource>, absentRoles: seq<Role>, bodyRef: string, revision: string)

  function RequiredRefs(items: seq<Resource>): set<string> {
    set i | 0 <= i < |items| && items[i].required :: items[i].ref
  }

  function RequiredRefsOf(items: seq<Resource>, role: Role): set<string> {
    set i | 0 <= i < |items| && items[i].required && items[i].role == role :: items[i].ref
  }

  /** The references filed under a role, in order. */
  function RefsOf(items: seq<Resource>, role: Role): seq<string> {
    if items == [] then []
    else
      var last := items[|items| - 1];
      RefsOf(items[..|items| - 1], role) + (if last.role == role then [last.ref] else [])
  }

  lemma {:induction false} RefsAreOfRole(items: seq<Resource>, role: Role, ref: string)
    ensures ref in RefsOf(items, role) <==> exists i | 0 <= i < |items| :: items[i].role == role && items[i].ref == ref
  {
    if items != [] {
      var front, last := items[..|items| - 1], items[|items| - 1];
      RefsAreOfRole(front, role, ref);
      assert items == front + [last];
      if ref in RefsOf(front, role) {
        var i :| 0 <= i < |front| && front[i].role == role && front[i].ref == ref;
        assert items[i].ref == ref;
      }
    }
  }

  /** `_text` */
  predicate IsText(text: string) {
    && |text| <= 2048 && (exists c | c in text :: !IsStripped(c))
    && forall c | c in text :: 32 <= c as int && c as int != 127
  }

  /** One resource by itself. */
  predicate ValidResource(r: Resource, revision: string) {
    && IsText(r.ref) && IsText(r.mediaType) && IsText(r.sourceRevision) && r.sourceRevision == revision
    && 0 < r.expectedBytes <= RESPONSE_BYTES
    && match r.proof
       case Frozen(sha) => IsHex(sha, 64)
       case FirstObserved(attestationRef) => IsText(attestationRef)
  }

  /** One reference may fill several roles, but is described only one way. */
  predicate SameDescriptor(a: Resource, b: Resource) {
    a.(role := Body) == b.(role := Body)
  }

  ghost predicate Consistent(items: seq<Resource>) {
    forall i, j | 0 <= i < j < |items| && items[i].ref == items[j].ref :: SameDescriptor(items[i], items[j])
  }

  /** Exactly the roles without a resource are declared absent, each once; the body is never absent. */
  predicate DeclaresAbsent(absent: seq<Role>, items: seq<Resource>) {
    && Body !in absent && |set r | r in absent| == |absent|
    && (Asset in absent <==> RefsOf(items, Asset) == []) && (Labor in absent <==> RefsOf(items, Labor) == [])
  }

  /** The resource rules of `validate_enrollment` for one bank. */
  ghost predicate ValidResources(e: Enrollment) {
    && 1 <= |e.items| <= 134
    && (forall i | 0 <= i < |e.items| :: ValidResource(e.items[i], e.revision))
    && Consistent(e.items)
    && RefsOf(e.items, Body) == [e.bodyRef]
    && (forall i | 0 <= i < |e.items| && e.items[i].role == Body :: e.items[i].required)
    && |RequiredRefsOf(e.items, Asset)| <= 4
    && |RequiredRefsOf(e.items, Labor)| <= 1
    && DeclaresAbsent(e.absentRoles, e.items)
  }

  /** One body, at most four assets and at most one labor resource: between one and six resources to read. */
  lemma RequiredAreAtMostSix(e: Enrollment)
    requires ValidResources(e)
    ensures e.bodyRef in RequiredRefs(e.items) && 1 <= |RequiredRefs(e.items)| <= MAX_REQUIRED
  {
    hide ValidResource, Consistent, DeclaresAbsent;
    var items := e.items;
    var all, assets, labor := RequiredRefs(items), RequiredRefsOf(items, Asset), RequiredRefsOf(items, Labor);
    forall ref | ref in all
      ensures ref in {e.bodyRef} + assets + labor
    {
      var i :| 0 <= i < |items| && items[i].required && items[i].ref == ref;
      match items[i].role
      case Body => RefsAreOfRole(items, Body, ref);
      case Asset => assert ref in assets;
      case Labor => assert ref in labor;
    }
    RefsAreOfRole(items, Body, e.bodyRef);
    var i :| 0 <= i < |items| && items[i].role == Body && items[i].ref == e.bodyRef;
    assert items[i].ref in all;
    SubsetSize(all, {e.bodyRef} + assets + labor);
    SubsetSize({e.bodyRef}, all);
    UnionSize({e.bodyRef} + assets, labor);
    UnionSize({e.bodyRef}, assets);
  }

  /** The table of descriptors: every reference met so far, with one of its descriptions. */
  ghost predicate Tabled(items: seq<Resource>, seen: map<string, Resource>) {
    && (forall i | 0 <= i < |items| :: items[i].ref in seen)
    && (forall ref | ref in seen :: seen[ref] in items && seen[ref].ref == ref)
  }

  lemma TableGrows(items: seq<Resource>, seen: map<string, Resource>, item: Resource)
    requires Tabled(items, seen) && Consistent(items)
    ensures Consistent(items + [item]) <==> (item.ref in seen ==> SameDescriptor(seen[item.ref], item))
    ensures Tabled(items + [item], seen[item.ref := item])
  {
    var more := items + [item];
    if item.ref in seen {
      var i :| 0 <= i < |items| && items[i] == seen[item.ref];
      assert more[i].ref == more[|items|].ref;
    }
    var table := seen[item.ref := item];
    forall ref | ref in table
      ensures table[ref] in more
    {
      if ref == item.ref {
        assert more[|items|] == item;
      }
    }
  }

  /** The loop of `validate_enrollment` over the resources, with its lists by role and its table of descriptors. */
  method ValidateResources(e: Enrollment) returns (ok: bool)
    ensures ok <==> ValidResources(e)
  {
    hide RequiredRefsOf, Tabled, Consistent, SameDescriptor, RefsOf, ValidResource, IsText;
    var items := e.items;
    if !(1 <= |items| <= 134) {
      return false;
    }
    var bodies: seq<string>, assets: seq<string>, labor: seq<string> := [], [], [];
    var bodyRequired, requiredAssets: set<string>, requiredLabor: set<string> := true, {}, {};
    var seen: map<string, Resource>, n := map[], 0;
    NothingYet();
    assert items[..0] == [];
    while n < |items|
      invariant n <= |items| && bodies == RefsOf(items[..n], Body)
      invariant assets == RefsOf(items[..n], Asset) && labor == RefsOf(items[..n], Labor)
      invariant bodyRequired <==> forall i | 0 <= i < n && items[i].role == Body :: items[i].required
      invariant requiredAssets == RequiredRefsOf(items[..n], Asset)
      invariant requiredLabor == RequiredRefsOf(items[..n], Labor)
      invariant forall i | 0 <= i < n :: ValidResource(items[i], e.revision)
      invariant Tabled(items[..n], seen) && Consistent(items[..n])
      decreases |items| - n
    {
      var item := items[n];
      assert items[..n + 1] == items[..n] + [item];
      TableGrows(items[..n], seen, item);
      ConsistentPrefix(items, n + 1);
      if !ValidResource(item, e.revision) {
        return false;
      }
      if item.ref in seen && !SameDescriptor(seen[item.ref], item) {
        return false;
      }
      RefsGrow(items, n);
      RequiredRefsGrow(items, n, Asset);
      RequiredRefsGrow(items, n, Labor);
      match item.role {
        case Body =>
          bodies, bodyRequired := bodies + [item.ref], bodyRequired && item.required;
        case Asset =>
          assets, requiredAssets := assets + [item.ref], requiredAssets + (if item.required then {item.ref} else {});
        case Labor =>
          labor, requiredLabor := labor + [item.ref], requiredLabor + (if item.required then {item.ref} else {});
      }
      seen, n := seen[item.ref := item], n + 1;
    }
    assert items[..n] == items;
    ok := bodies == [e.bodyRef] && bodyRequired && |requiredAssets| <= 4 && |requiredLabor| <= 1
      && DeclaresAbsent(e.absentRoles, items);
  }

  lemma ConsistentPrefix(items: seq<Resource>, n: nat)
    requires n <= |items|
    ensures Consistent(items) ==> Consistent(items[..n])
  {
  }

  lemma RefsGrow(items: seq<Resource>, n: nat)
    requires n < |items|
    ensures forall role ::
      RefsOf(items[..n + 1], role) == RefsOf(items[..n], role) + (if items[n].role == role then [items[n].ref] else [])
  {
    assert items[..n + 1][..n] == items[..n];
  }

  lemma NothingYet()
    ensures Tabled([], map[]) && Consistent([])
    ensures RefsOf([], Body) == RefsOf([], Asset) == RefsOf([], Labor) == []
    ensures RequiredRefsOf([], Asset) == RequiredRefsOf([], Labor) == {}
  {
  }

  lemma RequiredRefsGrow(items: seq<Resource>, n: nat, role: Role)
    requires n < |items|
    ensures RequiredRefsOf(items[..n + 1], role)
         == RequiredRefsOf(items[..n], role)
            + (if items[n].role == role && items[n].required then {items[n].ref} else {})
  {
  }

  lemma {:induction false} SubsetSize<T>(a: set<T>, b: set<T>)
    requires a <= b
    ensures |a| <= |b|
  {
    if a != {} {
      var x :| x in a;
      SubsetSize(a - {x}, b - {x});
    }
  }

  lemma UnionSize<T>(a: set<T>, b: set<T>)
    ensures |a + b| <= |a| + |b|
  {
    assert a + b == a + (b - a);
    SubsetSize(b - a, b);
  }

  // ---------------------------------------------------------------- the public summary

  datatype RowState = PendingState | Failed | Incomplete | Withdrawn | ObservedComplete

  datatype Counters = Counters(requests: int, articles: int, resources: int)

  /** One bank's line in the summary. */
  datatype Line = Line(state: RowState, stopCode: Option<string>, intended: Counters, attempted: Counters,
                       successful: Counters)

  /** `validate_summary` on one line: an allowed stop code and counters that cannot exceed one another. */
  predicate ValidLine(l: Line) {
    && (l.stopCode.Some? ==> IsAllowed(l.stopCode.value))
    && l.intended.articles == 1 && 1 <= l.intended.resources <= MAX_REQUIRED
    && 0 <= l.successful.requests <= l.attempted.requests <= BANK_REQUESTS
    && 0 <= l.successful.articles <= l.attempted.articles <= l.intended.articles
    && 0 <= l.successful.resources <= l.attempted.resources <= l.intended.resources
  }

  // ---------------------------------------------------------------- how a step can end

  /** What stops a bank: an error with a code, an output error, an interruption, or anything else. */
  datatype Failure = Coded(code: string) | ValueError(text: string) | OutputError | Interrupt | Other

  function CodeOf(f: Failure): string {
    match f
    case Coded(code) => code
    case ValueError(text) => text
    case OutputError => "OUTPUT_FAILURE"
    case Interrupt => "CANCELLED"
    case Other => "TRANSPORT"
  }

  function StateAfter(code: string): (s: RowState)
    ensures s.Incomplete? || s.Failed?
  {
    if code in INCOMPLETE_CODES then Incomplete else Failed
  }

  /** Unknown codes are reported as a validation failure. */
  function StopCode(f: Failure): (code: string)
    ensures IsAllowed(code)
  {
    if CodeOf(f) in STOP_CODES then CodeOf(f) else "VALIDATION"
  }
}
