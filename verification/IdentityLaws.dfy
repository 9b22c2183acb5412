/** What does and what does not depend on the order of the rows, and what is left when stored rows are read again. */
module IdentityLaws {
  import opened Wrappers
  import opened Texts
  import opened Slugs
  import opened Identities

  // ---------------------------------------------------------------- the order of the rows

  lemma KeysIgnoreOrder(rows: seq<Row>, others: seq<Row>)
    requires multiset(rows) == multiset(others)
    ensures Keys(rows) == Keys(others)
  {
    hide KeyOf;
    KeysAreWithin(rows, others);
    KeysAreWithin(others, rows);
  }

  lemma KeysAreWithin(rows: seq<Row>, others: seq<Row>)
    requires multiset(rows) == multiset(others)
    ensures Keys(rows) <= Keys(others)
  {
    hide KeyOf;
    forall key | key in Keys(rows)
      ensures key in Keys(others)
    {
      var i :| 0 <= i < |rows| && KeyOf(rows[i]) == key;
      assert rows[i] in multiset(others);
      var j :| 0 <= j < |others| && others[j] == rows[i];
    }
  }

  /** Whatever the order of the rows, the same keys come out in the same order. */
  lemma RecordsKeepTheirOrder(records: seq<Record>, rows: seq<Row>, records': seq<Record>, rows': seq<Row>)
    requires multiset(rows) == multiset(rows')
    requires Summarises(records, rows) && Summarises(records', rows')
    ensures RecordKeys(records) == RecordKeys(records') && |records| == |records'|
  {
    hide KeyOf, FamilyAfter;
    KeysIgnoreOrder(rows, rows');
    SortedIsUnique(RecordKeys(records), RecordKeys(records'));
  }

  /** A body style of spaces only: stated, but empty in its normal form. */
  predicate IsBlank(row: Row) {
    row.bodyStyle != "" && BodyOf(row) == ""
  }

  /** A disagreement that does not ask which row came first. */
  predicate Clash(a: Row, b: Row) {
    DrivesDiffer(a, b) || (BodyOf(a) != "" && BodyOf(b) != "" && BodyOf(a) != BodyOf(b))
  }

  ghost predicate Clashes(rows: seq<Row>, key: string) {
    exists a, b | a in rows && b in rows :: KeyOf(a) == key == KeyOf(b) && Clash(a, b)
  }

  ghost predicate Mixed(rows: seq<Row>, key: string) {
    && (exists a | a in rows :: KeyOf(a) == key && BodyOf(a) != "")
    && (exists b | b in rows :: KeyOf(b) == key && IsBlank(b))
  }

  /** A blank body style counts against a body style met before it, and only then. */
  ghost predicate BlankAfterBody(rows: seq<Row>, key: string) {
    exists i, j | 0 <= i < j < |rows| ::
      KeyOf(rows[i]) == key == KeyOf(rows[j]) && BodyOf(rows[i]) != "" && IsBlank(rows[j])
  }

  lemma DisputeIsClashOrBlank(rows: seq<Row>, key: string)
    ensures Disputed(rows, key) <==> Clashes(rows, key) || BlankAfterBody(rows, key)
  {
    hide KeyOf, DriveOf, BodyOf;
    NoStyleIsNoBody();
    if Clashes(rows, key) {
      var a, b :| a in rows && b in rows && KeyOf(a) == key == KeyOf(b) && Clash(a, b);
      var i :| 0 <= i < |rows| && rows[i] == a;
      var j :| 0 <= j < |rows| && rows[j] == b;
      assert i != j;
      assert i < j ==> Disagree(rows[i], rows[j]);
      assert j < i ==> Disagree(rows[j], rows[i]);
    }
    if BlankAfterBody(rows, key) {
      var i, j :| 0 <= i < j < |rows|
        && KeyOf(rows[i]) == key == KeyOf(rows[j]) && BodyOf(rows[i]) != "" && IsBlank(rows[j]);
      assert Disagree(rows[i], rows[j]);
    }
    if Disputed(rows, key) {
      var i, j :| 0 <= i < j < |rows| && KeyOf(rows[i]) == key == KeyOf(rows[j]) && Disagree(rows[i], rows[j]);
      assert Clash(rows[i], rows[j]) || (BodyOf(rows[i]) != "" && IsBlank(rows[j]));
    }
  }

  lemma ClashesIgnoreOrder(rows: seq<Row>, others: seq<Row>, key: string)
    requires multiset(rows) == multiset(others)
    ensures Clashes(rows, key) ==> Clashes(others, key)
    ensures Mixed(rows, key) ==> Mixed(others, key)
  {
    hide KeyOf, Clash, IsBlank, BodyOf;
    forall r: Row | r in rows
      ensures r in others
    {
      assert r in multiset(rows) && r in multiset(others);
    }
  }

  /** A family's verdict ignores the order of the rows unless only blank body styles stand against a stated one. */
  lemma VerdictIgnoresOrder(rows: seq<Row>, others: seq<Row>, key: string)
    requires multiset(rows) == multiset(others)
    requires Clashes(rows, key) || !Mixed(rows, key)
    ensures Disputed(rows, key) <==> Disputed(others, key)
  {
    hide KeyOf, Clash, IsBlank, BodyOf;
    DisputeIsClashOrBlank(rows, key);
    DisputeIsClashOrBlank(others, key);
    ClashesIgnoreOrder(rows, others, key);
    ClashesIgnoreOrder(others, rows, key);
    BlankAfterBodyIsMixed(rows, key);
    BlankAfterBodyIsMixed(others, key);
  }

  lemma BlankAfterBodyIsMixed(rows: seq<Row>, key: string)
    ensures BlankAfterBody(rows, key) ==> Mixed(rows, key)
  {
    hide KeyOf, IsBlank, BodyOf;
  }

  /** In that one case it does depend on the order: blanks first, and the family is resolved; last, and it is not. */
  lemma VerdictNeedsOrder(rows: seq<Row>, key: string) returns (resolved: seq<Row>, disputed: seq<Row>)
    requires !Clashes(rows, key) && Mixed(rows, key)
    ensures multiset(resolved) == multiset(rows) == multiset(disputed)
    ensures !Disputed(resolved, key) && Disputed(disputed, key)
  {
    hide KeyOf, Clash, IsBlank, BodyOf, Chosen;
    var blanks, stated := Chosen(rows, true), Chosen(rows, false);
    ChoiceIsPartition(rows);
    resolved, disputed := blanks + stated, stated + blanks;
    ClashesIgnoreOrder(resolved, rows, key);
    DisputeIsClashOrBlank(resolved, key);
    DisputeIsClashOrBlank(disputed, key);
    BlanksFirst(blanks, stated, key);
    var a :| a in rows && KeyOf(a) == key && BodyOf(a) != "";
    var b :| b in rows && KeyOf(b) == key && IsBlank(b);
    BlankHasNoBody();
    assert a in multiset(rows) && b in multiset(rows);
    assert a in stated && b in blanks;
    BlanksLast(blanks, stated, key, a, b);
  }

  /** Two such rows: one batch, two verdicts. */
  lemma OrderDependentBatch() returns (stated: Row, blank: Row)
    ensures stated == Row(IntYear(2020), "Ford", "Focus", "US", "Sedan", "", "", None, "", "")
    ensures blank == stated.(bodyStyle := " ") && ValidRow(stated) && ValidRow(blank)
    ensures var key := KeyOf(stated);
      && KeyOf(blank) == key
      && !Clashes([stated, blank], key) && Mixed([stated, blank], key)
      && Disputed([stated, blank], key) && !Disputed([blank, stated], key)
  {
    hide Join, Slug, Title, TitleWords, Drivetrain, Trim, Disputed;
    stated := Row(IntYear(2020), "Ford", "Focus", "US", "Sedan", "", "", None, "", "");
    blank := stated.(bodyStyle := " ");
    var key := KeyOf(stated);
    LiteralBodies();
    assert TrimSpace("Ford") == "Ford" by {
      TrimmedIsFixed("Ford");
    }
    assert TrimSpace("Focus") == "Focus" by {
      TrimmedIsFixed("Focus");
    }
    DisputeIsClashOrBlank([stated, blank], key);
    DisputeIsClashOrBlank([blank, stated], key);
    assert [stated, blank][0] == stated && [stated, blank][1] == blank;
  }

  lemma LiteralBodies()
    ensures TitleWords("Sedan") != "" && TitleWords(" ") == "" && Drivetrain("") == ""
  {
    hide TitleWords, Drivetrain, Trim;
    TitleWordsTwice("Sedan");
    TitleWordsTwice(" ");
    TrimmedIsFixed("Sedan");
    TrimmedIsFixed(" ");
    NothingHasNoDrive();
  }

  lemma BlankHasNoBody()
    ensures forall r: Row | IsBlank(r) :: BodyOf(r) == ""
  {
    hide BodyOf;
  }

  lemma BlanksFirst(blanks: seq<Row>, stated: seq<Row>, key: string)
    requires (forall r | r in blanks :: IsBlank(r)) && forall r | r in stated :: !IsBlank(r)
    ensures !BlankAfterBody(blanks + stated, key)
  {
    hide KeyOf, BodyOf, IsBlank;
    BlankHasNoBody();
    var rows := blanks + stated;
    forall i, j | 0 <= i < j < |rows|
      ensures BodyOf(rows[i]) == "" || !IsBlank(rows[j])
    {
      if i < |blanks| {
        assert rows[i] in blanks;
      } else {
        assert rows[j] in stated;
      }
    }
  }

  lemma BlanksLast(blanks: seq<Row>, stated: seq<Row>, key: string, a: Row, b: Row)
    requires a in stated && KeyOf(a) == key && BodyOf(a) != ""
    requires b in blanks && KeyOf(b) == key && IsBlank(b)
    ensures BlankAfterBody(stated + blanks, key)
  {
    hide KeyOf, BodyOf, IsBlank;
    var i :| 0 <= i < |stated| && stated[i] == a;
    var j :| 0 <= j < |blanks| && blanks[j] == b;
    assert (stated + blanks)[i] == a && (stated + blanks)[|stated| + j] == b;
  }

  function Chosen(rows: seq<Row>, blank: bool): seq<Row> {
    if rows == [] then []
    else
      var last := rows[|rows| - 1];
      Chosen(rows[..|rows| - 1], blank) + (if IsBlank(last) == blank then [last] else [])
  }

  lemma {:induction false} ChoiceIsPartition(rows: seq<Row>)
    ensures multiset(Chosen(rows, true)) + multiset(Chosen(rows, false)) == multiset(rows)
    ensures forall r | r in Chosen(rows, true) :: IsBlank(r)
    ensures forall r | r in Chosen(rows, false) :: !IsBlank(r)
  {
    hide IsBlank;
    if rows != [] {
      ChoiceIsPartition(rows[..|rows| - 1]);
      assert rows == rows[..|rows| - 1] + [rows[|rows| - 1]];
    }
  }

  // ---------------------------------------------------------------- normal forms are stable

  predicate IsTrimmed(s: string) {
    s == "" || (IsInk(s[0]) && IsInk(s[|s| - 1]))
  }

  lemma TrimmedIsFixed(s: string)
    ensures IsTrimmed(TrimSpace(s)) && |TrimSpace(s)| <= |s|
    ensures if IsTrimmed(s) then TrimSpace(s) == s else |TrimSpace(s)| < |s|
  {
    hide TrimLeft, TrimRight;
    TrimLeftEnds(s);
    TrimRightEnds(TrimLeft(IsSpace, s));
  }

  lemma {:induction false} TrimLeftEnds(s: string)
    ensures var t := TrimLeft(IsSpace, s);
      && (t != "" ==> IsInk(t[0]) && s != "" && t[|t| - 1] == s[|s| - 1])
      && if s == "" || IsInk(s[0]) then t == s else |t| < |s|
  {
    if s != "" && IsSpace(s[0]) {
      TrimLeftEnds(s[1..]);
    }
  }

  lemma {:induction false} TrimRightEnds(s: string)
    ensures var t := TrimRight(IsSpace, s);
      && (t != "" ==> IsInk(t[|t| - 1]) && s != "" && t[0] == s[0])
      && if s == "" || IsInk(s[|s| - 1]) then t == s else |t| < |s|
  {
    if s != "" && IsSpace(s[|s| - 1]) {
      TrimRightEnds(s[..|s| - 1]);
    }
  }

  lemma CaseKeepsSpaces()
    ensures forall c :: IsSpace(LowerChar(c)) == IsSpace(c) == IsSpace(UpperChar(c))
    ensures forall c :: UpperChar(UpperChar(c)) == UpperChar(c) && LowerChar(LowerChar(c)) == LowerChar(c)
  {
  }

  lemma TitleTwice(s: string)
    ensures Title(Title(s)) == Title(s) && (Title(s) == "" <==> TrimSpace(s) == "")
  {
    var t := TrimSpace(s);
    TrimmedIsFixed(s);
    TrimmedIsFixed(Title(s));
    CaseKeepsSpaces();
    if t != "" {
      assert Title(s)[1..] == Lower(t[1..]);
      assert Title(s)[|t| - 1] == if |t| == 1 then UpperChar(t[0]) else LowerChar(t[|t| - 1]);
      assert Lower(Lower(t[1..])) == Lower(t[1..]);
    }
  }

  lemma TitleOfRun(w: string)
    requires IsRun(IsInk, w)
    ensures IsRun(IsInk, Title(w))
  {
    hide Trim;
    assert w[0] in w && w[|w| - 1] in w;
    TrimmedIsFixed(w);
    CaseKeepsSpaces();
    var t := Title(w);
    forall c | c in t
      ensures IsInk(c)
    {
      var i :| 0 <= i < |t| && t[i] == c;
      assert w[i] in w;
    }
  }

  lemma TitleWordsTwice(s: string)
    ensures TitleWords(TitleWords(s)) == TitleWords(s)
    ensures TitleWords(s) == "" <==> TrimSpace(s) == ""
  {
    hide Runs, Join, Title, Trim;
    var fields := Fields(TrimSpace(s));
    var parts := TitleAll(fields);
    RunsAreRuns(IsInk, TrimSpace(s));
    forall w | w in parts
      ensures IsRun(IsInk, w) && Title(w) == w
    {
      var i :| 0 <= i < |parts| && parts[i] == w;
      assert fields[i] in fields;
      TitleOfRun(fields[i]);
      TitleTwice(fields[i]);
    }
    RunsOfJoin(IsInk, parts, ' ');
    TrimKeepsRuns(IsInk, IsSpace, TitleWords(s));
    assert TitleAll(parts) == parts;
    TrimmedIsFixed(s);
    NothingHasNoFields(TrimSpace(s));
    JoinIsEmpty(parts);
  }

  lemma NothingHasNoFields(s: string)
    requires IsTrimmed(s)
    ensures Fields(s) == [] <==> s == ""
  {
  }

  lemma JoinIsEmpty(parts: seq<string>)
    requires forall w | w in parts :: IsRun(IsInk, w)
    ensures Join(parts, ' ') == "" <==> parts == []
  {
    assert |parts| > 0 ==> parts[0] in parts;
  }

  lemma RegionTwice(s: string)
    ensures Upper(TrimSpace(Upper(TrimSpace(s)))) == Upper(TrimSpace(s))
  {
    TrimmedIsFixed(s);
    TrimmedIsFixed(Upper(TrimSpace(s)));
    CaseKeepsSpaces();
  }

  lemma {:induction false} WithoutDrops(s: string)
    ensures |Without(s, SEPARATORS)| <= |s|
    ensures forall c | c in Without(s, SEPARATORS) :: c !in SEPARATORS && c in s
    ensures (forall c | c in s :: c !in SEPARATORS) ==> Without(s, SEPARATORS) == s
  {
    if s != "" {
      WithoutDrops(s[1..]);
      assert s == [s[0]] + s[1..];
    }
  }

  lemma UpperTwice(s: string)
    ensures Upper(Upper(s)) == Upper(s)
  {
    CaseKeepsSpaces();
  }

  /** A drivetrain in normal form has no separators left and is in upper case. */
  lemma DrivetrainIsPlain(s: string)
    ensures Upper(Drivetrain(s)) == Drivetrain(s) && forall c | c in Drivetrain(s) :: c !in SEPARATORS
    ensures Drivetrain(s) !in {"4X2", "4X4"}
  {
    hide Drivetrain, Without, Trim;
    DrivetrainShape(s);
    var t := Without(TrimSpace(s), SEPARATORS);
    WithoutDrops(TrimSpace(s));
    var n := Upper(t);
    UpperTwice(t);
    forall c | c in n
      ensures c !in SEPARATORS
    {
      var i :| 0 <= i < |n| && n[i] == c;
      assert t[i] in t;
    }
    assert Upper("2WD") == "2WD" && Upper("4WD") == "4WD";
  }

  lemma {:induction false} WithoutJoins(a: string, b: string)
    ensures Without(a + b, SEPARATORS) == Without(a, SEPARATORS) + Without(b, SEPARATORS)
  {
    hide Without;
    WithoutHead(a);
    if a == "" {
      assert a + b == b;
    } else {
      var c, rest := a[0], a[1..];
      assert a == [c] + rest;
      JoinedTwice([c], rest, b);
      WithoutCons(c, rest + b);
      WithoutJoins(rest, b);
      JoinedTwice(if c in SEPARATORS then "" else [c], Without(rest, SEPARATORS), Without(b, SEPARATORS));
    }
  }

  lemma JoinedTwice(a: string, b: string, c: string)
    ensures a + b + c == a + (b + c)
  {
  }

  lemma WithoutHead(s: string)
    ensures Without(s, SEPARATORS) == if s == "" then ""
      else (if s[0] in SEPARATORS then "" else [s[0]]) + Without(s[1..], SEPARATORS)
  {
  }

  lemma WithoutCons(c: char, s: string)
    ensures Without([c] + s, SEPARATORS) == (if c in SEPARATORS then "" else [c]) + Without(s, SEPARATORS)
  {
    assert ([c] + s)[1..] == s;
  }

  lemma WithoutOne(c: char)
    ensures Without([c], SEPARATORS) == if c in SEPARATORS then "" else [c]
  {
    assert [c][1..] == "";
  }

  /** Trimming what would be dropped anyway changes nothing. */
  lemma {:induction false} WithoutTrimmed(s: string)
    ensures Without(TrimLeft(IsSeparator, s), SEPARATORS) == Without(s, SEPARATORS)
         == Without(TrimRight(IsSeparator, s), SEPARATORS)
    decreases |s|
  {
    if s != "" {
      var front, last := s[..|s| - 1], s[|s| - 1];
      WithoutTrimmed(s[1..]);
      WithoutTrimmed(front);
      assert s == front + [last];
      WithoutJoins(front, [last]);
      WithoutOne(last);
    }
  }

  /** When the first and the last character stay, they stay first and last. */
  lemma EndsStay(s: string)
    requires s != "" && s[0] !in SEPARATORS && s[|s| - 1] !in SEPARATORS
    ensures var w := Without(s, SEPARATORS); w != "" && w[0] == s[0] && w[|w| - 1] == s[|s| - 1]
  {
    var front, last := s[..|s| - 1], s[|s| - 1];
    assert s == front + [last];
    WithoutJoins(front, [last]);
    WithoutOne(last);
  }

  /** White space stands around a normal form exactly when it stands around the core of what was normalised. */
  lemma CoreDecides(s: string)
    ensures IsTrimmed(Drivetrain(s)) <==> IsTrimmed(Core(s))
  {
    hide Drivetrain, Without, Trim, Runs, TrimLeft, TrimRight;
    var t := TrimSpace(s);
    DrivetrainShape(s);
    var k := TrimLeftKeepsRuns(IsPlain, IsSeparator, t);
    var m := TrimRightKeepsRuns(IsPlain, IsSeparator, t[k..]);
    CoreIsSlice(s, k, m);
    var core, w := Core(s), Without(Core(s), SEPARATORS);
    WithoutTrimmed(t);
    WithoutTrimmed(TrimLeft(IsSeparator, t));
    CoreIsTrim(s);
    if core != "" {
      assert core[0] == t[k] && core[|core| - 1] == t[k..][m - 1];
      EndsStay(core);
    } else {
      NothingIsDropped();
    }
    CaseKeepsSpaces();
    assert |Upper(w)| == |w| && (w != "" ==> IsSpace(Upper(w)[0]) == IsSpace(w[0]));
    assert w != "" ==> IsSpace(Upper(w)[|w| - 1]) == IsSpace(w[|w| - 1]);
  }

  predicate IsPlain(c: char) {
    !IsSeparator(c)
  }

  lemma NothingIsDropped()
    ensures Without("", SEPARATORS) == ""
  {
  }

  lemma CoreIsTrim(s: string)
    ensures Core(s) == TrimRight(IsSeparator, TrimLeft(IsSeparator, TrimSpace(s)))
  {
  }

  lemma CoreIsSlice(s: string, k: nat, m: nat)
    requires k <= |TrimSpace(s)| && TrimLeft(IsSeparator, TrimSpace(s)) == TrimSpace(s)[k..]
    requires m <= |TrimSpace(s)[k..]| && TrimRight(IsSeparator, TrimSpace(s)[k..]) == TrimSpace(s)[k..][..m]
    ensures Core(s) == TrimSpace(s)[k..][..m]
  {
  }

  /**
   Normalising a drivetrain again changes nothing exactly when there is no white space around the core of the
   text: what is left when the separators around the trimmed text are gone.
   */
  lemma DrivetrainStability(s: string)
    ensures Drivetrain(Drivetrain(s)) == Drivetrain(s) <==> IsTrimmed(Core(s))
  {
    hide Drivetrain, Without, Trim, Upper, Core;
    var d := Drivetrain(s);
    CoreDecides(s);
    DrivetrainIsPlain(s);
    TrimmedIsFixed(d);
    WithoutDrops(d);
    WithoutDrops(TrimSpace(d));
    DrivetrainShape(d);
    assert IsTrimmed("2WD") && IsTrimmed("4WD");
  }

  lemma DrivetrainShape(s: string)
    ensures var n := Upper(Without(TrimSpace(s), SEPARATORS));
      Drivetrain(s) == if n == "4X2" then "2WD" else if n == "4X4" then "4WD" else n
  {
  }

  /** A form that is not stable: a dash dropped from in front of a tab lets the tab survive the first time. */
  lemma UnstableDrivetrain()
    ensures Drivetrain("-\t4x4") == "\t4X4" && Drivetrain(Drivetrain("-\t4x4")) == "4WD"
  {
    TabSurvives();
    TabIsTrimmed();
  }

  lemma TabSurvives()
    ensures Drivetrain("-\t4x4") == "\t4X4"
  {
    hide Drivetrain, Trim, Without;
    DrivetrainShape("-\t4x4");
    TrimmedIsFixed("-\t4x4");
    WithoutDash("\t4x4");
    assert ['-'] + "\t4x4" == "-\t4x4" && Upper("\t4x4") == "\t4X4";
  }

  lemma TabIsTrimmed()
    ensures Drivetrain("\t4X4") == "4WD"
  {
    hide Drivetrain, Trim, Without;
    DrivetrainShape("\t4X4");
    SpaceIsTrimmed('\t', "4X4");
    WithoutDrops("4X4");
    assert ['\t'] + "4X4" == "\t4X4" && Upper("4X4") == "4X4";
  }

  lemma WithoutDash(s: string)
    requires forall c | c in s :: c !in SEPARATORS
    ensures Without(['-'] + s, SEPARATORS) == s
  {
    WithoutDrops(s);
    assert (['-'] + s)[1..] == s;
  }

  lemma SpaceIsTrimmed(c: char, s: string)
    requires IsSpace(c) && s != "" && IsTrimmed(s)
    ensures TrimSpace([c] + s) == s
  {
    assert ([c] + s)[1..] == s;
    assert TrimLeft(IsSpace, [c] + s) == TrimLeft(IsSpace, s);
    TrimmedIsFixed(s);
  }

  // ---------------------------------------------------------------- stored rows, read again

  predicate HasStableDrive(row: Row) {
    IsTrimmed(Core(row.drivetrain))
  }

  /** A canonical row is valid, and belongs to the same family. */
  lemma CanonicalIsStable(row: Row, bodyStyle: string)
    requires ValidRow(row)
    ensures ValidRow(Canonical(row, bodyStyle)) && KeyOf(Canonical(row, bodyStyle)) == KeyOf(row)
    ensures DriveOf(Canonical(row, bodyStyle)) == Drivetrain(DriveOf(row))
    ensures BodyOf(Canonical(row, bodyStyle)) == TitleWords(bodyStyle)
  {
    hide Title, TitleWords, Drivetrain, Slug, Trim, Join, Upper;
    TitleTwice(row.make);
    TitleTwice(MakeOf(row));
    ChevroletIsStable();
    TitleWordsTwice(row.model);
    TitleWordsTwice(ModelOf(row));
    RegionTwice(row.region);
  }

  lemma ChevroletIsStable()
    ensures Title("Chevrolet") == "Chevrolet" && Lower("Chevrolet") != "chevy" && TrimSpace("Chevrolet") != ""
  {
  }

  /** A family's body style, once stated, stays. */
  lemma {:induction false} BodyStyleStays(rows: seq<Row>, n: nat, key: string)
    requires n <= |rows| && key in Keys(rows[..n])
    ensures FamilyAfter(rows[..n], key).Some? && FamilyAfter(rows, key).Some?
    ensures FamilyAfter(rows[..n], key).value.bodyStyle in {"", FamilyAfter(rows, key).value.bodyStyle}
    decreases |rows|
  {
    hide KeyOf, DriveOf, BodyOf;
    FamilyIsOfItsKey(rows[..n], key);
    if n == |rows| {
      assert rows[..n] == rows;
    } else {
      var front := rows[..|rows| - 1];
      assert front[..n] == rows[..n];
      BodyStyleStays(front, n, key);
    }
  }

  lemma {:induction false} CanonicalAt(rows: seq<Row>, i: nat)
    requires i < |rows|
    ensures FamilyAfter(rows[..i + 1], KeyOf(rows[i])).Some?
    ensures CanonicalRows(rows)[i] == Canonical(rows[i], FamilyAfter(rows[..i + 1], KeyOf(rows[i])).value.bodyStyle)
    decreases |rows|
  {
    hide KeyOf, Absorb, Canonical;
    if i == |rows| - 1 {
      assert rows[..i + 1] == rows;
    } else {
      var front := rows[..|rows| - 1];
      CanonicalAt(front, i);
      assert front[..i + 1] == rows[..i + 1] && front[i] == rows[i];
    }
  }

  /** A family's body style is in normal form. */
  lemma BodyStyleIsNormal(rows: seq<Row>, key: string)
    requires key in Keys(rows)
    ensures FamilyAfter(rows, key).Some?
    ensures TitleWords(FamilyAfter(rows, key).value.bodyStyle) == FamilyAfter(rows, key).value.bodyStyle
  {
    hide KeyOf, DriveOf, TitleWords, FamilyAfter;
    FamilyIsDrawn(rows, key);
    var body := FamilyAfter(rows, key).value.bodyStyle;
    if body != "" {
      var k :| 0 <= k < |rows| && KeyOf(rows[k]) == key && BodyOf(rows[k]) == body;
      TitleWordsTwice(rows[k].bodyStyle);
    } else {
      NothingHasNoTitle();
    }
  }

  lemma NothingHasNoTitle()
    ensures TitleWords("") == ""
  {
    TitleWordsTwice("");
    TrimmedIsFixed("");
  }

  lemma KeyIsThere(rows: seq<Row>, i: nat)
    requires i < |rows|
    ensures KeyOf(rows[i]) in Keys(rows[..i + 1])
  {
    hide KeyOf;
  }

  /** The body style of a canonical row is empty or its family's, and never blank. */
  lemma CanonicalBody(rows: seq<Row>, i: nat)
    requires i < |rows| && ValidRow(rows[i])
    ensures var c, key := CanonicalRows(rows)[i], KeyOf(rows[i]);
      && ValidRow(c) && KeyOf(c) == key && DriveOf(c) == Drivetrain(DriveOf(rows[i]))
      && FamilyAfter(rows, key).Some? && BodyOf(c) == c.bodyStyle
      && c.bodyStyle in {"", FamilyAfter(rows, key).value.bodyStyle}
  {
    hide KeyOf, ValidRow, DriveOf, Drivetrain, TitleWords, FamilyAfter, CanonicalRows, Keys;
    var key, upTo := KeyOf(rows[i]), rows[..i + 1];
    KeyIsThere(rows, i);
    CanonicalAt(rows, i);
    BodyStyleIsNormal(upTo, key);
    CanonicalIsStable(rows[i], FamilyAfter(upTo, key).value.bodyStyle);
    BodyStyleStays(rows, i + 1, key);
  }

  ghost predicate DriveDisputed(rows: seq<Row>, key: string) {
    exists i, j | 0 <= i < j < |rows| :: KeyOf(rows[i]) == key == KeyOf(rows[j]) && DrivesDiffer(rows[i], rows[j])
  }

  /** One stored row of a batch, seen from the row it was made from. */
  ghost predicate IsStored(rows: seq<Row>, i: nat, c: Row)
    requires i < |rows|
  {
    && ValidRow(c) && KeyOf(c) == KeyOf(rows[i]) && DriveOf(c) == Drivetrain(DriveOf(rows[i]))
    && FamilyAfter(rows, KeyOf(c)).Some? && BodyOf(c) == c.bodyStyle
    && c.bodyStyle in {"", FamilyAfter(rows, KeyOf(c)).value.bodyStyle}
  }

  /**
   Normalising stored rows once more finds the same families. The rows of one family no longer disagree about the
   body style: what is found are drivetrain disputes, and each of them was there before.
   */
  lemma RenormalisingFindsDriveDisputes(rows: seq<Row>, key: string)
    requires forall i | 0 <= i < |rows| :: ValidRow(rows[i])
    ensures forall i | 0 <= i < |rows| :: ValidRow(CanonicalRows(rows)[i])
    ensures Keys(CanonicalRows(rows)) == Keys(rows)
    ensures Disputed(CanonicalRows(rows), key) <==> DriveDisputed(CanonicalRows(rows), key)
    ensures DriveDisputed(CanonicalRows(rows), key) ==> DriveDisputed(rows, key)
  {
    hide KeyOf, ValidRow, DriveOf, Drivetrain, BodyOf, CanonicalRows, FamilyAfter, Disagree, DrivesDiffer, Disputed,
      DriveDisputed, Keys, IsStored;
    var stored := CanonicalRows(rows);
    forall i | 0 <= i < |rows|
      ensures IsStored(rows, i, stored[i]) && KeyOf(stored[i]) == KeyOf(rows[i]) && ValidRow(stored[i])
    {
      IsStoredAt(rows, i);
    }
    SameKeysEachIsSameKeys(rows, stored);
    forall i, j | 0 <= i < j < |rows| && KeyOf(rows[i]) == KeyOf(rows[j])
      ensures Disagree(stored[i], stored[j]) <==> DrivesDiffer(stored[i], stored[j])
      ensures DrivesDiffer(stored[i], stored[j]) ==> DrivesDiffer(rows[i], rows[j])
    {
      StoredPair(rows, i, j, stored[i], stored[j]);
    }
    DisputesCorrespond(rows, stored, key);
  }

  lemma IsStoredAt(rows: seq<Row>, i: nat)
    requires i < |rows| && ValidRow(rows[i])
    ensures IsStored(rows, i, CanonicalRows(rows)[i]) && ValidRow(CanonicalRows(rows)[i])
    ensures KeyOf(CanonicalRows(rows)[i]) == KeyOf(rows[i])
  {
    hide KeyOf, ValidRow, DriveOf, Drivetrain, BodyOf, CanonicalRows, FamilyAfter;
    CanonicalBody(rows, i);
  }

  lemma NothingHasNoDrive()
    ensures Drivetrain("") == ""
  {
    assert Upper("") == "";
  }

  lemma StoredPair(rows: seq<Row>, i: nat, j: nat, a: Row, b: Row)
    requires i < |rows| && j < |rows| && KeyOf(rows[i]) == KeyOf(rows[j])
    requires IsStored(rows, i, a) && IsStored(rows, j, b)
    ensures Disagree(a, b) <==> DrivesDiffer(a, b)
    ensures DrivesDiffer(a, b) ==> DrivesDiffer(rows[i], rows[j])
  {
    hide KeyOf, ValidRow, DriveOf, Drivetrain, BodyOf, FamilyAfter;
    NothingHasNoDrive();
  }

  lemma DisputesCorrespond(rows: seq<Row>, stored: seq<Row>, key: string)
    requires |rows| == |stored| && forall i | 0 <= i < |rows| :: KeyOf(stored[i]) == KeyOf(rows[i])
    requires forall i, j | 0 <= i < j < |rows| && KeyOf(rows[i]) == KeyOf(rows[j]) ::
      && (Disagree(stored[i], stored[j]) <==> DrivesDiffer(stored[i], stored[j]))
      && (DrivesDiffer(stored[i], stored[j]) ==> DrivesDiffer(rows[i], rows[j]))
    ensures Disputed(stored, key) <==> DriveDisputed(stored, key)
    ensures DriveDisputed(stored, key) ==> DriveDisputed(rows, key)
  {
    hide KeyOf, Disagree, DrivesDiffer;
  }

  /** Where every drivetrain is stable, none of them is lost either. */
  lemma RenormalisingKeepsDriveDisputes(rows: seq<Row>, key: string)
    requires forall i | 0 <= i < |rows| :: ValidRow(rows[i]) && HasStableDrive(rows[i])
    ensures Disputed(CanonicalRows(rows), key) <==> DriveDisputed(rows, key)
  {
    hide KeyOf, ValidRow, Drivetrain, CanonicalRows, Disputed, IsTrimmed, Core;
    RenormalisingFindsDriveDisputes(rows, key);
    var stored := CanonicalRows(rows);
    forall i | 0 <= i < |rows|
      ensures KeyOf(stored[i]) == KeyOf(rows[i]) && DriveOf(stored[i]) == DriveOf(rows[i])
    {
      CanonicalBody(rows, i);
      DrivetrainStability(rows[i].drivetrain);
    }
    SameDrivesSameDisputes(rows, stored, key);
  }

  lemma SameDrivesSameDisputes(rows: seq<Row>, others: seq<Row>, key: string)
    requires |rows| == |others|
    requires forall i | 0 <= i < |rows| :: KeyOf(rows[i]) == KeyOf(others[i]) && DriveOf(rows[i]) == DriveOf(others[i])
    ensures DriveDisputed(rows, key) <==> DriveDisputed(others, key)
  {
    hide KeyOf, DriveOf;
  }

  lemma SameKeysEachIsSameKeys(rows: seq<Row>, others: seq<Row>)
    requires |rows| == |others| && forall i | 0 <= i < |rows| :: KeyOf(rows[i]) == KeyOf(others[i])
    ensures Keys(rows) == Keys(others)
  {
    hide KeyOf;
  }
}
