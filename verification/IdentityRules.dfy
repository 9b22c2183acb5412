/**
 What a normalised row says, character by character, which rows share a configuration, and what a record lists.
 */
module IdentityRules {
  import opened Wrappers
  import opened Texts
  import opened Slugs
  import opened Identities
  import opened IdentityKeys
  import opened IdentityLaws

  // ---------------------------------------------------------------- white space

  /** Space, or one of the five controls from tab to carriage return. */
  ghost predicate IsWhite(c: char) {
    c as int in {0x20, 0x09, 0x0a, 0x0b, 0x0c, 0x0d}
  }

  /** The part of a text from its first to its last character that is not white; nothing, if all are. */
  ghost predicate IsMiddle(s: string, a: nat, b: nat) {
    && a <= b <= |s| && (forall i | 0 <= i < a || b <= i < |s| :: IsWhite(s[i]))
    && (a < b ==> !IsWhite(s[a]) && !IsWhite(s[b - 1]))
  }

  lemma WhiteIsExact()
    ensures forall c :: IsSpace(c) <==> IsWhite(c)
  {
  }

  lemma {:induction false} TrimmedLeft(s: string) returns (a: nat)
    ensures a <= |s| && TrimLeft(IsSpace, s) == s[a..]
    ensures (forall i | 0 <= i < a :: IsSpace(s[i])) && (a < |s| ==> !IsSpace(s[a]))
  {
    a := 0;
    if s != "" && IsSpace(s[0]) {
      a := TrimmedLeft(s[1..]);
      forall i | 0 <= i < a + 1
        ensures IsSpace(s[i])
      {
        assert i > 0 ==> s[i] == s[1..][i - 1];
      }
      a := a + 1;
    }
  }

  lemma {:induction false} TrimmedRight(s: string) returns (b: nat)
    ensures b <= |s| && TrimRight(IsSpace, s) == s[..b]
    ensures (forall i | b <= i < |s| :: IsSpace(s[i])) && (b > 0 ==> !IsSpace(s[b - 1]))
  {
    b := |s|;
    if s != "" && IsSpace(s[|s| - 1]) {
      var front := s[..|s| - 1];
      b := TrimmedRight(front);
      assert front[..b] == s[..b];
      assert forall i | 0 <= i < |front| :: front[i] == s[i];
    }
  }

  /** Trimming cuts off the white ends and nothing else. */
  lemma TrimIsExact(s: string) returns (a: nat, b: nat)
    ensures IsMiddle(s, a, b) && TrimSpace(s) == s[a..b]
    ensures TrimSpace(s) == "" <==> forall i | 0 <= i < |s| :: IsWhite(s[i])
  {
    hide TrimLeft, TrimRight, IsSpace, IsWhite;
    WhiteIsExact();
    a := TrimmedLeft(s);
    var rest := s[a..];
    b := TrimmedRight(rest);
    assert forall i | 0 <= i < |rest| :: rest[i] == s[a + i];
    if b > 0 {
      assert rest[0] == s[a] && rest[b - 1] == s[a + b - 1];
    }
    b := a + b;
    assert TrimSpace(s) == s[a..b];
    assert a < b ==> !IsWhite(s[a]);
    forall i | b <= i < |s|
      ensures IsWhite(s[i])
    {
      assert rest[i - a] == s[i];
    }
  }

  /** A row is taken when its year is one of a car and its make and model have something to read. */
  lemma ValidRowsAreExact(row: Row)
    ensures ValidRow(row) <==>
      && 1886 <= Year(row.year) <= 2100
      && (exists i | 0 <= i < |row.make| :: !IsWhite(row.make[i]))
      && (exists i | 0 <= i < |row.model| :: !IsWhite(row.model[i]))
  {
    hide Trim, IsWhite, Year;
    var _, _ := TrimIsExact(row.make);
    var _, _ := TrimIsExact(row.model);
  }

  // ---------------------------------------------------------------- letters

  ghost predicate IsSmall(c: char) {
    0x61 <= c as int < 0x7b
  }

  ghost predicate IsCapital(c: char) {
    0x41 <= c as int < 0x5b
  }

  /** A word with a capital in front, as far as letters go: the same word, nothing small first, no capital after. */
  ghost predicate IsCapitalised(text: string, word: string) {
    && |text| == |word| && Lower(text) == Lower(word)
    && forall i | 0 <= i < |text| :: if i == 0 then !IsSmall(text[i]) else !IsCapital(text[i])
  }

  lemma TitleIsExact(s: string)
    ensures IsCapitalised(Title(s), TrimSpace(s))
  {
    hide Trim, Title, Lower;
    var t := TrimSpace(s);
    LowerOfTitle(s);
    assert |Title(s)| == |Lower(Title(s))| == |Lower(t)| == |t|;
    forall i | 0 <= i < |t|
      ensures if i == 0 then !IsSmall(Title(s)[i]) else !IsCapital(Title(s)[i])
    {
      TitleAt(s, i);
      CaseIsExact(t[i]);
    }
  }

  lemma TitleAt(s: string, i: nat)
    requires i < |TrimSpace(s)| == |Title(s)|
    ensures Title(s)[i] == if i == 0 then UpperChar(TrimSpace(s)[i]) else LowerChar(TrimSpace(s)[i])
  {
    hide Trim, Lower;
    var t := TrimSpace(s);
    if i > 0 {
      LowerAt(t[1..], i - 1);
      assert Title(s)[i] == Lower(t[1..])[i - 1];
    }
  }

  lemma LowerAt(s: string, i: nat)
    requires i < |s|
    ensures Lower(s)[i] == LowerChar(s[i])
  {
  }

  /** Words with a capital in front, one space between them: those of the text, in order. */
  ghost predicate AreTitled(text: string, s: string) {
    exists parts: seq<string> ::
      && text == Join(parts, ' ') && |parts| == |Fields(s)|
      && forall i | 0 <= i < |parts| :: IsCapitalised(parts[i], Fields(s)[i])
  }

  lemma TitleWordsAreExact(s: string)
    ensures AreTitled(TitleWords(s), s)
  {
    hide Runs, Join, Trim, Title;
    var fields := Fields(TrimSpace(s));
    TrimKeepsFields(s);
    RunsAreRuns(IsInk, TrimSpace(s));
    var parts := TitleAll(fields);
    forall i | 0 <= i < |parts|
      ensures IsCapitalised(parts[i], fields[i])
    {
      assert fields[i] in fields;
      RunIsTrimmed(fields[i]);
      TitleIsExact(fields[i]);
    }
  }

  lemma TrimKeepsFields(s: string)
    ensures Fields(TrimSpace(s)) == Fields(s)
  {
    TrimKeepsRuns(IsInk, IsSpace, s);
  }

  /** The region is the trimmed text with nothing small left in it. */
  lemma RegionIsExact(row: Row)
    ensures |RegionOf(row)| == |TrimSpace(row.region)| && Lower(RegionOf(row)) == Lower(TrimSpace(row.region))
    ensures forall i | 0 <= i < |RegionOf(row)| :: !IsSmall(RegionOf(row)[i])
  {
    hide Trim;
  }

  // ---------------------------------------------------------------- drivetrains

  /** Neither a space nor a dash nor an underscore. */
  predicate IsKept(c: char) {
    c != ' ' && c != '-' && c != '_'
  }

  lemma {:induction false} RestIsExact(s: string) returns (at: seq<nat>)
    ensures IsSelection(s, IsKept, Without(s, SEPARATORS), at)
  {
    hide IsSelection;
    at := [];
    NothingIsSelected(IsKept);
    if s != "" {
      var rest := RestIsExact(s[1..]);
      at := SelectInFront(s, IsKept, Without(s[1..], SEPARATORS), rest);
      assert Without(s, SEPARATORS) == (if IsKept(s[0]) then [s[0]] else []) + Without(s[1..], SEPARATORS);
    }
  }

  /** A drivetrain is what is left of the trimmed text, in capitals; two of them are named by the wheels that drive. */
  lemma DriveIsExact(s: string) returns (rest: string, at: seq<nat>)
    ensures IsSelection(TrimSpace(s), IsKept, rest, at)
    ensures Upper(rest) == "4X2" ==> Drivetrain(s) == "2WD"
    ensures Upper(rest) == "4X4" ==> Drivetrain(s) == "4WD"
    ensures Upper(rest) != "4X2" && Upper(rest) != "4X4" ==> Drivetrain(s) == Upper(rest)
  {
    hide Trim, IsSelection;
    rest := Without(TrimSpace(s), SEPARATORS);
    at := RestIsExact(TrimSpace(s));
  }

  // ---------------------------------------------------------------- who shares a configuration

  ghost predicate IsBlank(s: string) {
    forall i | 0 <= i < |s| :: IsWhite(s[i])
  }

  /** Rows of one family and one engine share a configuration exactly when both have no trim, or the same words. */
  lemma TrimsAreApart(a: Row, b: Row)
    requires KeyOf(a) == KeyOf(b) && a.engine == b.engine
    ensures ConfigKeyOf(a) == ConfigKeyOf(b) <==>
      (IsBlank(a.trim) <==> IsBlank(b.trim)) && Words(a.trim) == Words(b.trim)
  {
    hide Runs, Join, Trim, KeyOf, IsWhite, Lower;
    BlankHasNoWords(a.trim);
    BlankHasNoWords(b.trim);
    SameSlugIsSameWords(a.trim, b.trim);
    var key, engine := KeyOf(a), if a.engine.Some? then "-engine-" + DotsToDashes(a.engine.value) + "l" else "";
    var x, y := if IsBlank(a.trim) then "" else "-trim-" + Slug(a.trim),
      if IsBlank(b.trim) then "" else "-trim-" + Slug(b.trim);
    assert ConfigKeyOf(a) == key + x + engine && ConfigKeyOf(b) == key + y + engine;
    MiddleIsTold(key, x, y, engine);
    SuffixIsTold("-trim-", Slug(a.trim), Slug(b.trim));
    assert |x| == 0 <==> IsBlank(a.trim);
  }

  lemma BlankHasNoWords(s: string)
    ensures TrimSpace(s) == "" <==> IsBlank(s)
    ensures IsBlank(s) ==> Words(s) == []
  {
    hide Trim, IsWhite;
    var _, _ := TrimIsExact(s);
    TrimSpaceKeepsWords(s);
    NothingHasNoWords();
  }

  lemma MiddleIsTold(front: string, x: string, y: string, back: string)
    ensures front + x + back == front + y + back <==> x == y
  {
    if front + x + back == front + y + back {
      var all := front + x + back;
      assert |x| == |y|;
      assert x == all[|front|..|front| + |x|];
      assert y == (front + y + back)[|front|..|front| + |y|];
    }
  }

  lemma SuffixIsTold(front: string, x: string, y: string)
    ensures front + x == front + y <==> x == y
  {
    assert (front + x)[|front|..] == x && (front + y)[|front|..] == y;
  }

  /** How a displacement is printed: one dot, and one character after it. */
  ghost predicate HasOneDecimal(text: string) {
    |text| >= 2 && forall i | 0 <= i < |text| :: text[i] == '.' <==> i == |text| - 2
  }

  /** Rows of one family and alike in trim share one exactly when they are of the same displacement, or of none. */
  lemma EnginesAreApart(a: Row, b: Row)
    requires KeyOf(a) == KeyOf(b) && (IsBlank(a.trim) <==> IsBlank(b.trim)) && Words(a.trim) == Words(b.trim)
    requires a.engine.Some? ==> HasOneDecimal(a.engine.value)
    requires b.engine.Some? ==> HasOneDecimal(b.engine.value)
    ensures ConfigKeyOf(a) == ConfigKeyOf(b) <==> a.engine == b.engine
  {
    hide Runs, Join, Trim, KeyOf, IsWhite, Lower;
    BlankHasNoWords(a.trim);
    BlankHasNoWords(b.trim);
    var front := KeyOf(a) + if IsBlank(a.trim) then "" else "-trim-" + Slug(a.trim);
    var x, y := if a.engine.Some? then "-engine-" + DotsToDashes(a.engine.value) + "l" else "",
      if b.engine.Some? then "-engine-" + DotsToDashes(b.engine.value) + "l" else "";
    assert ConfigKeyOf(a) == front + x && ConfigKeyOf(b) == front + y;
    SuffixIsTold(front, x, y);
    if a.engine.Some? && b.engine.Some? {
      MiddleIsTold("-engine-", DotsToDashes(a.engine.value), DotsToDashes(b.engine.value), "l");
      DotsAreTold(a.engine.value, b.engine.value);
    }
  }

  lemma DotsAreTold(a: string, b: string)
    requires HasOneDecimal(a) && HasOneDecimal(b)
    ensures DotsToDashes(a) == DotsToDashes(b) <==> a == b
  {
    if DotsToDashes(a) == DotsToDashes(b) {
      assert |a| == |DotsToDashes(a)| == |b|;
      forall i | 0 <= i < |a|
        ensures a[i] == b[i]
      {
        assert DotsToDashes(a)[i] == DotsToDashes(b)[i];
      }
    }
  }

  /** The words of a configuration's key: those of the row's key, then of its trim and of its engine, each announced. */
  lemma ConfigKeySpellsTheRow(row: Row)
    requires ValidRow(row)
    ensures Runs(IsAlnum, ConfigKeyOf(row)) ==
      KeyWords(row) + (if IsBlank(row.trim) then [] else ["trim"] + Words(row.trim))
      + (if row.engine.None? then [] else ["engine"] + Runs(IsAlnum, row.engine.value + "l"))
  {
    hide Runs, Join, Trim, KeyOf, IsBlank, Lower, KeyWords, Slug, DotsToDashes;
    BlankHasNoWords(row.trim);
    KeySpellsTheRow(row);
    var front := KeyOf(row) + TrimPart(row);
    assert ConfigKeyOf(row) == front + EnginePart(row);
    TrimPartSpells(row, KeyOf(row));
    EnginePartSpells(row, front);
  }

  function TrimPart(row: Row): string {
    if TrimSpace(row.trim) != "" then "-trim-" + Slug(row.trim) else ""
  }

  function EnginePart(row: Row): string {
    if row.engine.Some? then "-engine-" + DotsToDashes(row.engine.value) + "l" else ""
  }

  lemma TrimPartSpells(row: Row, front: string)
    ensures Runs(IsAlnum, front + TrimPart(row)) ==
      Runs(IsAlnum, front) + if TrimSpace(row.trim) == "" then [] else ["trim"] + Words(row.trim)
  {
    hide Runs, Join, Trim, Lower, Slug;
    if TrimSpace(row.trim) == "" {
      assert front + TrimPart(row) == front;
    } else {
      SlugHasWords(row.trim);
      Announced("trim");
      Dashed(front, "trim", Slug(row.trim));
      assert TrimPart(row) == "-" + "trim" + "-" + Slug(row.trim);
    }
  }

  lemma EnginePartSpells(row: Row, front: string)
    ensures Runs(IsAlnum, front + EnginePart(row)) ==
      Runs(IsAlnum, front) + if row.engine.None? then [] else ["engine"] + Runs(IsAlnum, row.engine.value + "l")
  {
    hide Runs;
    if row.engine.None? {
      assert front + EnginePart(row) == front;
    } else {
      var engine := DotsToDashes(row.engine.value) + "l";
      Announced("engine");
      Dashed(front, "engine", engine);
      RunsIgnoreTheRest(IsAlnum, engine, row.engine.value + "l");
      assert EnginePart(row) == "-" + "engine" + "-" + engine;
    }
  }

  lemma Announced(word: string)
    requires word == "trim" || word == "engine"
    ensures Runs(IsAlnum, word) == [word]
  {
    RunIsOne(IsAlnum, word);
  }

  lemma Dashed(a: string, word: string, b: string)
    ensures Runs(IsAlnum, a + ("-" + word + "-" + b)) == Runs(IsAlnum, a) + Runs(IsAlnum, word) + Runs(IsAlnum, b)
  {
    hide Runs;
    RunsSplit(IsAlnum, a, '-', word + "-" + b);
    RunsSplit(IsAlnum, word, '-', b);
    assert a + ("-" + word + "-" + b) == a + ['-'] + (word + "-" + b);
    assert word + "-" + b == word + ['-'] + b;
  }

  // ---------------------------------------------------------------- what a record lists

  /** Row i is the first of its configuration key. */
  ghost predicate IsFirstAt(rows: seq<Row>, k: string, i: nat) {
    i < |rows| && ConfigKeyOf(rows[i]) == k && forall j | 0 <= j < i :: ConfigKeyOf(rows[j]) != k
  }

  lemma {:induction false} FirstIsExact(rows: seq<Row>, k: string)
    ensures FirstWith(rows, k).Some? <==> exists i: nat :: IsFirstAt(rows, k, i)
    ensures forall i: nat | IsFirstAt(rows, k, i) :: FirstWith(rows, k) == Some(rows[i])
  {
    hide ConfigKeyOf;
    if rows != [] {
      var front, last := rows[..|rows| - 1], |rows| - 1;
      FirstIsExact(front, k);
      forall i: nat | i < last
        ensures IsFirstAt(rows, k, i) <==> IsFirstAt(front, k, i)
      {
        assert forall j | 0 <= j < last :: rows[j] == front[j];
      }
      if exists i: nat :: IsFirstAt(front, k, i) {
        var i: nat :| IsFirstAt(front, k, i);
        assert IsFirstAt(rows, k, i);
      } else {
        NoneBefore(front, k, last);
        assert forall j | 0 <= j < last :: rows[j] == front[j];
        assert ConfigKeyOf(rows[last]) == k ==> IsFirstAt(rows, k, last);
      }
    }
  }

  lemma {:induction false} NoneBefore(rows: seq<Row>, k: string, n: nat)
    requires n <= |rows| && forall i: nat :: !IsFirstAt(rows, k, i)
    ensures forall j | 0 <= j < n :: ConfigKeyOf(rows[j]) != k
  {
    hide ConfigKeyOf;
    if n > 0 {
      NoneBefore(rows, k, n - 1);
      assert !IsFirstAt(rows, k, n - 1);
    }
  }

  /** As this row gives it: its id, its trim without the white ends, its engine. */
  ghost predicate IsGivenBy(c: Configuration, row: Row) {
    c.key == ConfigKeyOf(row) && c.id == row.configurationId && c.trim == TrimSpace(row.trim) && c.engine == row.engine
  }

  /**
   A record lists a configuration for each key among its accepted rows, as the first of them gives it, and each with
   the drivetrain that the record's rows state first.
   */
  lemma ListedAsGiven(records: seq<Record>, rows: seq<Row>, r: Record, own: seq<Row>)
    requires Summarises(records, rows) && r in records && own == RowsOf(rows, r.family.key)
    ensures forall c | c in r.configurations ::
      c.drivetrain == FirstStated(own, DriveOf)
      && exists i: nat :: IsFirstAt(Accepted(own), c.key, i) && IsGivenBy(c, Accepted(own)[i])
    ensures forall row | row in Accepted(own) :: exists c :: c in r.configurations && c.key == ConfigKeyOf(row)
  {
    hide KeyOf, ConfigKeyOf, FamilyAfter, RowsOf, Accepted, FirstStated, StrictlySorted, Trim;
    var key := r.family.key;
    FamilyIsItsRows(rows, key);
    ConfigurationsAreExact(rows, key);
    forall c | c in r.configurations
      ensures c.drivetrain == FirstStated(own, DriveOf)
      ensures exists i: nat :: IsFirstAt(Accepted(own), c.key, i) && IsGivenBy(c, Accepted(own)[i])
    {
      FirstIsExact(Accepted(own), c.key);
      var i: nat :| IsFirstAt(Accepted(own), c.key, i);
      IsGiven(r.family, c, Accepted(own)[i]);
    }
    forall row | row in Accepted(own)
      ensures exists c :: c in r.configurations && c.key == ConfigKeyOf(row)
    {
      var k := ConfigKeyOf(row);
      FirstIsThere(Accepted(own), row);
      assert k in Elements(ConfigurationKeys(r.configurations));
    }
  }

  lemma IsGiven(f: Family, c: Configuration, row: Row)
    requires c.key in f.configs && c == f.configs[c.key].(drivetrain := f.drivetrain)
    requires f.configs[c.key] == ConfigurationOf(row, f.configs[c.key].drivetrain)
    ensures IsGivenBy(c, row) && c.drivetrain == f.drivetrain
  {
    hide ConfigKeyOf, Trim;
  }

  lemma FirstIsThere(rows: seq<Row>, row: Row)
    requires row in rows
    ensures FirstWith(rows, ConfigKeyOf(row)).Some?
  {
    hide ConfigKeyOf;
    FirstIsExact(rows, ConfigKeyOf(row));
    if forall i: nat :: !IsFirstAt(rows, ConfigKeyOf(row), i) {
      NoneBefore(rows, ConfigKeyOf(row), |rows|);
      assert false;
    }
  }

  /** What a row is at odds with, of what the rows before it state first: its drivetrain, then its body style. */
  function Contradictions(own: seq<Row>, row: Row): seq<Conflict> {
    var drive, body := FirstStated(own, DriveOf), FirstStated(own, BodyOf);
    (if drive != "" && DriveOf(row) !in ["", drive] then [Conflict("drivetrain", drive, DriveOf(row))] else [])
    + if body != "" && row.bodyStyle != "" && BodyOf(row) != body then [Conflict("body_style", body, BodyOf(row))]
      else []
  }

  function AllContradictions(own: seq<Row>): seq<Conflict> {
    if own == [] then []
    else
      var front, last := own[..|own| - 1], own[|own| - 1];
      AllContradictions(front) + Contradictions(front, last)
  }

  lemma AbsorbLists(f: Family, own: seq<Row>, row: Row)
    requires SumsUp(f, own)
    ensures Absorb(Some(f), row).conflicts == f.conflicts + Contradictions(own, row)
  {
    hide Year, MakeOf, ModelOf, RegionOf, KeyOf, DriveOf, BodyOf, FirstStated, Compared;
    AbsorbCompares(Some(f), row);
    ComparedLists(f, own, row);
  }

  lemma ComparedLists(f: Family, own: seq<Row>, row: Row)
    requires SumsUp(f, own)
    ensures Compared(Some(f), row).conflicts == f.conflicts + Contradictions(own, row)
  {
    hide Year, MakeOf, ModelOf, RegionOf, KeyOf, DriveOf, BodyOf, FirstStated;
  }

  /** The conflicts of a family are the contradictions of its rows, one after the other. */
  lemma {:induction false} ConflictsAreListed(rows: seq<Row>, key: string)
    ensures FamilyAfter(rows, key).Some? ==>
      FamilyAfter(rows, key).value.conflicts == AllContradictions(RowsOf(rows, key))
  {
    hide KeyOf, Absorb, SumsUp, Contradictions;
    if rows != [] {
      var front, last := rows[..|rows| - 1], rows[|rows| - 1];
      ConflictsAreListed(front, key);
      FamilyIsItsRows(front, key);
      if KeyOf(last) == key {
        var own := RowsOf(front, key);
        assert (own + [last])[..|own|] == own;
        if FamilyAfter(front, key).Some? {
          AbsorbLists(FamilyAfter(front, key).value, own, last);
        } else {
          FirstRowIsUndisputed(last);
          NothingContradicts(last);
          assert RowsOf(rows, key) == [last] && [last][..0] == [];
        }
      }
    }
  }

  lemma NothingContradicts(row: Row)
    ensures Contradictions([], row) == []
  {
  }

  /** A stored row keeps the configuration of its row, the ids and the engine. */
  lemma CanonicalKeepsTheRest(row: Row, bodyStyle: string)
    requires ValidRow(row)
    ensures var stored := Canonical(row, bodyStyle);
      && ConfigKeyOf(stored) == ConfigKeyOf(row) && stored.trim == TrimSpace(row.trim) && stored.engine == row.engine
      && stored.vehicleId == row.vehicleId && stored.configurationId == row.configurationId
      && stored.bodyStyle == bodyStyle && stored.drivetrain == DriveOf(row)
  {
    hide Runs, Join, Trim, KeyOf;
    CanonicalIsStable(row, bodyStyle);
    TrimmedIsFixed(row.trim);
    TrimmedIsFixed(TrimSpace(row.trim));
    TrimSpaceKeepsWords(row.trim);
  }
}
