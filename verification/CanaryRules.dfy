/** The rules of an enrollment once more, spelled out on the fields of its resources and the characters of its texts. */
module CanaryRules {
  import opened Wrappers
  import opened Texts
  import opened Canary

  /** The characters that count as white space. */
  ghost predicate IsWhite(c: char) {
    c as int in {9, 10, 11, 12, 13, 28, 29, 30, 31, 32, 133, 160, 5760, 8192, 8193, 8194, 8195, 8196, 8197, 8198, 8199,
                 8200, 8201, 8202, 8232, 8233, 8239, 8287, 12288}
  }

  /** At most 2048 characters, not all white, and no control among them. */
  ghost predicate IsReadable(text: string) {
    && |text| <= 2048
    && (exists i | 0 <= i < |text| :: !IsWhite(text[i]))
    && forall i | 0 <= i < |text| :: text[i] as int > 31 && text[i] as int != 127
  }

  lemma WhiteIsExact(c: char)
    ensures IsStripped(c) <==> IsWhite(c)
  {
  }

  lemma TextsAreExact(text: string)
    ensures IsText(text) <==> IsReadable(text)
  {
    hide IsStripped, IsWhite;
    forall i | 0 <= i < |text|
      ensures text[i] in text && (IsStripped(text[i]) <==> IsWhite(text[i]))
    {
      WhiteIsExact(text[i]);
    }
    if c: char :| c in text && !IsStripped(c) {
      var i :| 0 <= i < |text| && text[i] == c;
      assert !IsWhite(text[i]);
    }
  }

  ghost predicate IsHexadecimal(text: string) {
    |text| == 64 && forall i | 0 <= i < 64 :: '0' <= text[i] <= '9' || 'a' <= text[i] <= 'f'
  }

  lemma HexIsExact(text: string)
    ensures IsHex(text, 64) <==> IsHexadecimal(text)
  {
    assert forall i | 0 <= i < |text| :: text[i] in text;
  }

  /** One resource: readable names, the revision of the enrollment, a size within one response, and a pinned content. */
  ghost predicate IsProper(r: Resource, revision: string) {
    && IsReadable(r.ref) && IsReadable(r.mediaType) && IsReadable(revision) && r.sourceRevision == revision
    && 1 <= r.expectedBytes <= 20_000_000
    && (r.proof.Frozen? ==> IsHexadecimal(r.proof.sha))
    && (r.proof.FirstObserved? ==> IsReadable(r.proof.attestationRef))
  }

  lemma ResourcesAreExact(r: Resource, revision: string)
    ensures ValidResource(r, revision) <==> IsProper(r, revision)
  {
    hide IsText, IsReadable, IsHex, IsHexadecimal;
    TextsAreExact(r.ref);
    TextsAreExact(r.mediaType);
    TextsAreExact(r.sourceRevision);
    match r.proof
    case Frozen(sha) => HexIsExact(sha);
    case FirstObserved(attestation) => TextsAreExact(attestation);
  }

  /** The same but for the role they fill. */
  ghost predicate AreOne(a: Resource, b: Resource) {
    && a.mediaType == b.mediaType && a.required == b.required && a.sourceRevision == b.sourceRevision
    && a.expectedBytes == b.expectedBytes && a.proof == b.proof
  }

  /** The references that have to be read under a role. */
  function Demanded(items: seq<Resource>, role: Role): set<string> {
    set i | 0 <= i < |items| && items[i].role == role && items[i].required :: items[i].ref
  }

  /** Resource i is the only one that fills the role. */
  ghost predicate IsOnlyAt(items: seq<Resource>, role: Role, i: nat) {
    i < |items| && items[i].role == role && forall j | 0 <= j < |items| && items[j].role == role :: j == i
  }

  /**
   An enrollment: up to 134 proper resources, one reference described one way; one body, which is the enrolled one and
   required; at most four assets and one labor resource to read; and exactly the empty roles declared absent.
   */
  ghost predicate IsEnrolled(e: Enrollment) {
    && 1 <= |e.items| <= 134
    && (forall i | 0 <= i < |e.items| :: IsProper(e.items[i], e.revision))
    && (forall i, j | 0 <= i < j < |e.items| && e.items[i].ref == e.items[j].ref :: AreOne(e.items[i], e.items[j]))
    && (exists i: nat | IsOnlyAt(e.items, Body, i) :: e.items[i].ref == e.bodyRef && e.items[i].required)
    && |Demanded(e.items, Asset)| <= 4 && |Demanded(e.items, Labor)| <= 1
    && Body !in e.absentRoles && (forall i, j | 0 <= i < j < |e.absentRoles| :: e.absentRoles[i] != e.absentRoles[j])
    && forall role | role == Asset || role == Labor ::
         role in e.absentRoles <==> forall i | 0 <= i < |e.items| :: e.items[i].role != role
  }

  lemma SizeIsDistinct(roles: seq<Role>)
    ensures |set r | r in roles| == |roles| <==> forall i, j | 0 <= i < j < |roles| :: roles[i] != roles[j]
  {
    if Distinct(roles) {
      DistinctCount(roles);
      assert Elements(roles) == set r | r in roles;
    } else {
      var i, j :| 0 <= i < j < |roles| && roles[i] == roles[j];
      var others := roles[..j] + roles[j + 1..];
      assert forall r | r in roles :: r in others by {
        forall r | r in roles
          ensures r in others
        {
          var k :| 0 <= k < |roles| && roles[k] == r;
          assert others[if k < j then k else if k == j then i else k - 1] == r;
        }
      }
      assert (set r | r in roles) == Elements(others);
      ElementsAreAtMost(others);
    }
  }

  lemma {:induction false} ElementsAreAtMost(roles: seq<Role>)
    ensures |Elements(roles)| <= |roles|
  {
    if roles != [] {
      ElementsAreAtMost(roles[1..]);
      assert Elements(roles) == {roles[0]} + Elements(roles[1..]);
    }
  }

  lemma {:induction false} OneOfRole(items: seq<Resource>, role: Role)
    ensures RefsOf(items, role) == [] <==> forall i | 0 <= i < |items| :: items[i].role != role
    ensures |RefsOf(items, role)| == 1 <==> exists i: nat :: IsOnlyAt(items, role, i)
    ensures forall i: nat | IsOnlyAt(items, role, i) :: RefsOf(items, role) == [items[i].ref]
  {
    if items != [] {
      var front, last := items[..|items| - 1], |items| - 1;
      OneOfRole(front, role);
      assert forall j | 0 <= j < last :: items[j] == front[j];
      if items[last].role == role {
        if RefsOf(front, role) == [] {
          assert IsOnlyAt(items, role, last);
        } else {
          var k :| 0 <= k < |front| && front[k].role == role;
          assert items[k].role == role;
        }
      } else {
        forall i: nat
          ensures IsOnlyAt(items, role, i) <==> IsOnlyAt(front, role, i)
        {
        }
      }
    }
  }

  /** The resource rules accept exactly the enrollments. */
  lemma EnrollmentsAreExact(e: Enrollment)
    ensures ValidResources(e) <==> IsEnrolled(e)
  {
    hide ValidResource, IsProper, RefsOf;
    forall i | 0 <= i < |e.items|
      ensures ValidResource(e.items[i], e.revision) <==> IsProper(e.items[i], e.revision)
    {
      ResourcesAreExact(e.items[i], e.revision);
    }
    ConsistencyIsExact(e.items);
    OneOfRole(e.items, Body);
    OneOfRole(e.items, Asset);
    OneOfRole(e.items, Labor);
    SizeIsDistinct(e.absentRoles);
    assert RequiredRefsOf(e.items, Asset) == Demanded(e.items, Asset);
    assert RequiredRefsOf(e.items, Labor) == Demanded(e.items, Labor);
  }

  lemma ConsistencyIsExact(items: seq<Resource>)
    ensures Consistent(items) <==>
      forall i, j | 0 <= i < j < |items| && items[i].ref == items[j].ref :: AreOne(items[i], items[j])
  {
  }

  // ---------------------------------------------------------------- lines of the summary

  /** No more succeeded than was attempted, nor was attempted than was intended: one article, up to six resources. */
  lemma LinesAreExact(l: Line)
    ensures ValidLine(l) <==>
      && (l.stopCode.None? || l.stopCode.value in STOP_CODES)
      && l.intended.articles == 1 && l.intended.resources in {1, 2, 3, 4, 5, 6}
      && (forall n | n in [l.successful.requests, l.successful.articles, l.successful.resources] :: n >= 0)
      && l.successful.requests <= l.attempted.requests && l.attempted.requests <= 58
      && l.successful.articles <= l.attempted.articles && l.attempted.articles <= 1
      && l.successful.resources <= l.attempted.resources && l.attempted.resources <= l.intended.resources
  {
    hide IsAllowed;
    Allowed(l.stopCode);
    var least := [l.successful.requests, l.successful.articles, l.successful.resources];
    assert least[0] in least && least[1] in least && least[2] in least;
  }

  lemma Allowed(code: Option<string>)
    ensures code.Some? ==> (IsAllowed(code.value) <==> code.value in STOP_CODES)
  {
    hide STOP_CODES;
  }
}
