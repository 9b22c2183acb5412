/**
 `normalizeVehicleIdentityRows`: rows are grouped into families in place, and disagreements inside a family are
 recorded as they are met.
 */
module Identities {
  import opened Wrappers
  import opened Texts
  import opened Slugs

  // ---------------------------------------------------------------- normal forms

  function UpperChar(c: char): char {
    if 'a' <= c <= 'z' then (c as int - 32) as char else c
  }

  function Upper(s: string): (r: string)
    ensures |r| == |s|
  {
    seq(|s|, i requires 0 <= i < |s| => UpperChar(s[i]))
  }

  /** `titleVehicleWord` */
  function Title(s: string): string {
    var t := TrimSpace(s);
    if t == "" then "" else [UpperChar(t[0])] + Lower(t[1..])
  }

  function TitleAll(parts: seq<string>): (r: seq<string>)
    ensures |r| == |parts|
  {
    seq(|parts|, i requires 0 <= i < |parts| => Title(parts[i]))
  }

  /** `titleVehicleWords` */
  function TitleWords(s: string): string {
    Join(TitleAll(Fields(TrimSpace(s))), ' ')
  }

  const SEPARATORS := {' ', '-', '_'}

  predicate IsSeparator(c: char) {
    c in SEPARATORS
  }

  /** A trimmed text without the separators around it. */
  function Core(s: string): string {
    Trim(IsSeparator, TrimSpace(s))
  }

  /** `normalizeDrivetrain` */
  function Drivetrain(s: string): string {
    var n := Upper(Without(TrimSpace(s), SEPARATORS));
    match n
    case "4X2" => "2WD"
    case "4X4" => "4WD"
    case _ => n
  }

  datatype YearValue = IntYear(n: int) | FloatYear(x: real) | TextYear(text: string) | OtherYear

  /** A conversion to an integer drops the fraction. */
  function Truncated(x: real): int {
    if x >= 0.0 then x.Floor else -(-x).Floor
  }

  /** `strconv.Atoi` on a 64-bit machine. */
  function Atoi(s: string): Option<int> {
    var digits := if s != "" && s[0] in "+-" then s[1..] else s;
    if digits == "" || exists c | c in digits :: !IsDigit(c) then None
    else
      var size: int := Value(digits);
      var n := if s[0] == '-' then -size else size;
      if -0x8000_0000_0000_0000 <= n < 0x8000_0000_0000_0000 then Some(n) else None
  }

  function TwoDigitYear(year: int): int {
    if 0 <= year <= 30 then year + 2000 else if 30 < year < 100 then year + 1900 else year
  }

  /** `normalizedVehicleYear` */
  function Year(value: YearValue): int {
    match value
    case IntYear(n) => TwoDigitYear(n)
    case FloatYear(x) => TwoDigitYear(Truncated(x))
    case TextYear(text) =>
      var n := Atoi(TrimSpace(text));
      if n.Some? then TwoDigitYear(n.value) else 0
    case OtherYear => 0
  }

  // ---------------------------------------------------------------- rows and families

  /** `engine` is the engine displacement in litres as it is printed with one decimal. */
  datatype Row = Row(year: YearValue, make: string, model: string, region: string, bodyStyle: string,
                     drivetrain: string, trim: string, engine: Option<string>, vehicleId: string,
                     configurationId: string)

  datatype Conflict = Conflict(field: string, existing: string, incoming: string)

  datatype Configuration = Configuration(key: string, id: string, trim: string, engine: Option<string>,
                                         drivetrain: string)

  datatype Family = Family(vehicleId: string, key: string, year: int, make: string, model: string, region: string,
                           bodyStyle: string, drivetrain: string, conflicts: seq<Conflict>,
                           configs: map<string, Configuration>)

  datatype Status = Resolved | NeedsReview

  datatype Record = Record(status: Status, family: Family, configurations: seq<Configuration>)

  predicate ValidRow(row: Row) {
    1886 <= Year(row.year) <= 2100 && TrimSpace(row.make) != "" && TrimSpace(row.model) != ""
  }

  function MakeOf(row: Row): string {
    var make := Title(row.make);
    if Lower(make) == "chevy" then "Chevrolet" else make
  }

  function ModelOf(row: Row): string {
    TitleWords(row.model)
  }

  function RegionOf(row: Row): string {
    Upper(TrimSpace(row.region))
  }

  function DriveOf(row: Row): string {
    Drivetrain(row.drivetrain)
  }

  function BodyOf(row: Row): string {
    TitleWords(row.bodyStyle)
  }

  function KeyOf(row: Row): string {
    var parts := [Slug(MakeOf(row)), Slug(ModelOf(row)), Integer(Year(row.year))];
    Join(if RegionOf(row) == "" then parts else parts + [Slug(RegionOf(row))], '-')
  }

  function DotsToDashes(s: string): string {
    seq(|s|, i requires 0 <= i < |s| => if s[i] == '.' then '-' else s[i])
  }

  function ConfigKeyOf(row: Row): string {
    KeyOf(row) + (if TrimSpace(row.trim) != "" then "-trim-" + Slug(row.trim) else "")
    + (if row.engine.Some? then "-engine-" + DotsToDashes(row.engine.value) + "l" else "")
  }

  function ConfigurationOf(row: Row, drivetrain: string): Configuration {
    Configuration(ConfigKeyOf(row), row.configurationId, TrimSpace(row.trim), row.engine, drivetrain)
  }

  /** The family of a row's key, before its body style is looked at. */
  function Met(known: Option<Family>, row: Row): Family {
    var drive := DriveOf(row);
    match known
    case None =>
      Family(row.vehicleId, KeyOf(row), Year(row.year), MakeOf(row), ModelOf(row), RegionOf(row), "", drive, [], map[])
    case Some(f) =>
      var g := if f.vehicleId == "" then f.(vehicleId := row.vehicleId) else f;
      if f.drivetrain != "" && drive != "" && f.drivetrain != drive
      then g.(conflicts := g.conflicts + [Conflict("drivetrain", f.drivetrain, drive)])
      else if f.drivetrain == "" then g.(drivetrain := drive) else g
  }

  /** The family after it has been compared with one more of its rows. */
  function Compared(known: Option<Family>, row: Row): Family {
    var f, body := Met(known, row), BodyOf(row);
    if f.bodyStyle != "" && row.bodyStyle != "" && f.bodyStyle != body
    then f.(conflicts := f.conflicts + [Conflict("body_style", f.bodyStyle, body)])
    else if f.bodyStyle == "" then f.(bodyStyle := body) else f
  }

  /** A row that raised no conflict adds its configuration, unless the family has one under that key. */
  function Absorb(known: Option<Family>, row: Row): Family {
    var f, before := Compared(known, row), if known.Some? then |known.value.conflicts| else 0;
    if |f.conflicts| == before && ConfigKeyOf(row) !in f.configs
    then f.(configs := f.configs[ConfigKeyOf(row) := ConfigurationOf(row, f.drivetrain)])
    else f
  }

  /** The family of a key after some rows. */
  function FamilyAfter(rows: seq<Row>, key: string): (f: Option<Family>) {
    if rows == [] then None
    else
      var last, before := rows[|rows| - 1], FamilyAfter(rows[..|rows| - 1], key);
      if KeyOf(last) == key then Some(Absorb(before, last)) else before
  }

  /** A row in normal form; its body style is the one its family has by then. */
  function Canonical(row: Row, bodyStyle: string): Row {
    Row(IntYear(Year(row.year)), MakeOf(row), ModelOf(row), RegionOf(row), bodyStyle, DriveOf(row),
        TrimSpace(row.trim), row.engine, row.vehicleId, row.configurationId)
  }

  function CanonicalRows(rows: seq<Row>): (r: seq<Row>)
    ensures |r| == |rows|
  {
    if rows == [] then []
    else
      var last := rows[|rows| - 1];
      CanonicalRows(rows[..|rows| - 1]) + [Canonical(last, FamilyAfter(rows, KeyOf(last)).value.bodyStyle)]
  }

  function Keys(rows: seq<Row>): set<string> {
    set i | 0 <= i < |rows| :: KeyOf(rows[i])
  }

  function StatusOf(f: Family): Status {
    if |f.conflicts| > 0 then NeedsReview else Resolved
  }

  function RecordKeys(records: seq<Record>): (keys: seq<string>)
    ensures |keys| == |records|
  {
    seq(|records|, i requires 0 <= i < |records| => records[i].family.key)
  }

  function ConfigurationKeys(configurations: seq<Configuration>): (keys: seq<string>)
    ensures |keys| == |configurations|
  {
    seq(|configurations|, i requires 0 <= i < |configurations| => configurations[i].key)
  }

  /** All configurations of a family in ascending order of key, each with the family's drivetrain. */
  ghost predicate ListsConfigurations(configurations: seq<Configuration>, f: Family) {
    && StrictlySorted(ConfigurationKeys(configurations))
    && Elements(ConfigurationKeys(configurations)) == f.configs.Keys
    && forall c | c in configurations :: c.key in f.configs && c == f.configs[c.key].(drivetrain := f.drivetrain)
  }

  /** One record for each key, in ascending order of key, holding what its rows have added up to. */
  ghost predicate Summarises(records: seq<Record>, rows: seq<Row>) {
    && StrictlySorted(RecordKeys(records)) && Elements(RecordKeys(records)) == Keys(rows)
    && forall r | r in records ::
         && FamilyAfter(rows, r.family.key) == Some(r.family)
         && r.status == StatusOf(r.family) && ListsConfigurations(r.configurations, r.family)
  }

  lemma {:induction false} FamilyIsOfItsKey(rows: seq<Row>, key: string)
    ensures FamilyAfter(rows, key).Some? <==> key in Keys(rows)
    ensures FamilyAfter(rows, key).Some? ==> FamilyAfter(rows, key).value.key == key
  {
    hide KeyOf, DriveOf, BodyOf, ConfigKeyOf, ConfigurationOf;
    if rows != [] {
      var front, last := rows[..|rows| - 1], rows[|rows| - 1];
      FamilyIsOfItsKey(front, key);
      assert rows == front + [last];
      KeysGrow(front, last);
    }
  }

  lemma KeysGrow(rows: seq<Row>, row: Row)
    ensures Keys(rows + [row]) == Keys(rows) + {KeyOf(row)}
  {
    hide KeyOf;
    var more := rows + [row];
    assert more[|rows|] == row;
    forall key | key in Keys(rows)
      ensures key in Keys(more)
    {
      var i :| 0 <= i < |rows| && KeyOf(rows[i]) == key;
      assert more[i] == rows[i];
    }
  }

  /** Refuses the whole batch for one bad row; otherwise groups, sorts and sums up. */
  method NormalizeRows(rows: seq<Row>) returns (r: Option<(seq<Record>, seq<Row>)>)
    ensures r.None? <==> exists i | 0 <= i < |rows| :: !ValidRow(rows[i])
    ensures r.Some? ==> Summarises(r.value.0, rows) && r.value.1 == CanonicalRows(rows)
  {
    hide KeyOf, Absorb, Canonical, ValidRow, ListsConfigurations;
    var families: map<string, Family>, canonical: seq<Row>, n := map[], [], 0;
    while n < |rows|
      invariant n <= |rows| && forall i | 0 <= i < n :: ValidRow(rows[i])
      invariant canonical == CanonicalRows(rows[..n])
      invariant forall key :: key in families <==> FamilyAfter(rows[..n], key).Some?
      invariant forall key | key in families :: FamilyAfter(rows[..n], key) == Some(families[key])
    {
      var row := rows[n];
      if !ValidRow(row) {
        return None;
      }
      assert rows[..n + 1][..n] == rows[..n];
      var family := AddRow(families, row);
      families := families[KeyOf(row) := family];
      canonical := canonical + [Canonical(row, family.bodyStyle)];
      n := n + 1;
    }
    assert rows[..n] == rows;
    forall key
      ensures key in families <==> key in Keys(rows)
      ensures key in families ==> IsKeyed(families[key], key)
    {
      FamilyIsOfItsKey(rows, key);
      ConfigurationsAreKeyed(rows, key);
    }
    var records := Sorted(families);
    r := Some((records, canonical));
  }

  /** Families and configurations stand under their own keys. */
  ghost predicate IsKeyed(f: Family, key: string) {
    f.key == key && forall k | k in f.configs :: f.configs[k].key == k
  }

  lemma {:induction false} ConfigurationsAreKeyed(rows: seq<Row>, key: string)
    ensures FamilyAfter(rows, key).Some? ==> IsKeyed(FamilyAfter(rows, key).value, key)
  {
    hide KeyOf, DriveOf, BodyOf, ConfigKeyOf;
    if rows != [] {
      ConfigurationsAreKeyed(rows[..|rows| - 1], key);
    }
  }

  /** One row meets its family. */
  method AddRow(families: map<string, Family>, row: Row) returns (current: Family)
    ensures current == Absorb(if KeyOf(row) in families then Some(families[KeyOf(row)]) else None, row)
  {
    hide KeyOf, DriveOf, BodyOf, Year, MakeOf, ModelOf, RegionOf, ConfigKeyOf;
    var drive, key, rowConflict := DriveOf(row), KeyOf(row), false;
    if key !in families {
      current :=
        Family(row.vehicleId, key, Year(row.year), MakeOf(row), ModelOf(row), RegionOf(row), "", drive, [], map[]);
    } else {
      current := families[key];
      if current.vehicleId == "" && row.vehicleId != "" {
        current := current.(vehicleId := row.vehicleId);
      }
      if current.drivetrain != "" && drive != "" && current.drivetrain != drive {
        current := current.(conflicts := current.conflicts + [Conflict("drivetrain", current.drivetrain, drive)]);
        rowConflict := true;
      } else if current.drivetrain == "" {
        current := current.(drivetrain := drive);
      }
    }
    if current.bodyStyle != "" && row.bodyStyle != "" && current.bodyStyle != BodyOf(row) {
      current := current.(conflicts := current.conflicts + [Conflict("body_style", current.bodyStyle, BodyOf(row))]);
      rowConflict := true;
    } else if current.bodyStyle == "" {
      current := current.(bodyStyle := BodyOf(row));
    }
    if !rowConflict && ConfigKeyOf(row) !in current.configs {
      current := current.(configs := current.configs[ConfigKeyOf(row) := ConfigurationOf(row, current.drivetrain)]);
    }
  }

  method SortedConfigurations(f: Family) returns (configurations: seq<Configuration>)
    requires IsKeyed(f, f.key)
    ensures ListsConfigurations(configurations, f)
  {
    hide StrictlySorted;
    var sorted := SortedKeys(f.configs.Keys);
    assert forall i | 0 <= i < |sorted| :: sorted[i] in Elements(sorted);
    configurations := seq(|sorted|, i requires 0 <= i < |sorted| && sorted[i] in f.configs =>
      f.configs[sorted[i]].(drivetrain := f.drivetrain));
    assert ConfigurationKeys(configurations) == sorted;
  }

  /** The table of families as records, in ascending order of key. */
  method Sorted(families: map<string, Family>) returns (records: seq<Record>)
    requires forall key | key in families :: IsKeyed(families[key], key)
    ensures StrictlySorted(RecordKeys(records)) && Elements(RecordKeys(records)) == families.Keys
    ensures forall r | r in records ::
      && r.family.key in families && r.family == families[r.family.key] && r.status == StatusOf(r.family)
      && ListsConfigurations(r.configurations, r.family)
  {
    hide StrictlySorted, ListsConfigurations;
    var sorted := SortedKeys(families.Keys);
    assert forall i | 0 <= i < |sorted| :: sorted[i] in Elements(sorted);
    records := [];
    for n := 0 to |sorted|
      invariant |records| == n && forall i | 0 <= i < n :: records[i].family == families[sorted[i]]
      invariant forall i | 0 <= i < n :: records[i].status == StatusOf(records[i].family)
      invariant forall i | 0 <= i < n :: ListsConfigurations(records[i].configurations, records[i].family)
    {
      var family := families[sorted[n]];
      var configurations := SortedConfigurations(family);
      records := records + [Record(StatusOf(family), family, configurations)];
    }
    assert RecordKeys(records) == sorted;
  }

  // ---------------------------------------------------------------- what the status means

  predicate DrivesDiffer(a: Row, b: Row) {
    DriveOf(a) != "" && DriveOf(b) != "" && DriveOf(a) != DriveOf(b)
  }

  /** The later row states a body style, if only spaces, that is not the earlier one's. */
  predicate BodyDiffers(earlier: Row, later: Row) {
    BodyOf(earlier) != "" && later.bodyStyle != "" && BodyOf(later) != BodyOf(earlier)
  }

  predicate Disagree(earlier: Row, later: Row) {
    DrivesDiffer(earlier, later) || BodyDiffers(earlier, later)
  }

  ghost predicate Disputed(rows: seq<Row>, key: string) {
    exists i, j | 0 <= i < j < |rows| :: KeyOf(rows[i]) == key == KeyOf(rows[j]) && Disagree(rows[i], rows[j])
  }

  /** The family's drivetrain and body style come from its rows, and are missing only when no row has one. */
  ghost predicate Drawn(rows: seq<Row>, f: Family) {
    DriveDrawn(rows, f) && BodyDrawn(rows, f)
  }

  ghost predicate DriveDrawn(rows: seq<Row>, f: Family) {
    if f.drivetrain == "" then forall i | 0 <= i < |rows| && KeyOf(rows[i]) == f.key :: DriveOf(rows[i]) == ""
    else exists i | 0 <= i < |rows| :: KeyOf(rows[i]) == f.key && DriveOf(rows[i]) == f.drivetrain
  }

  ghost predicate BodyDrawn(rows: seq<Row>, f: Family) {
    if f.bodyStyle == "" then forall i | 0 <= i < |rows| && KeyOf(rows[i]) == f.key :: BodyOf(rows[i]) == ""
    else exists i | 0 <= i < |rows| :: KeyOf(rows[i]) == f.key && BodyOf(rows[i]) == f.bodyStyle
  }

  lemma {:induction false} FamilyIsDrawn(rows: seq<Row>, key: string)
    requires key in Keys(rows)
    ensures FamilyAfter(rows, key).Some? && FamilyAfter(rows, key).value.key == key
    ensures Drawn(rows, FamilyAfter(rows, key).value)
  {
    hide KeyOf, DriveOf, BodyOf, Drawn, Absorb;
    var front, last := rows[..|rows| - 1], rows[|rows| - 1];
    assert rows == front + [last];
    FamilyIsOfItsKey(rows, key);
    FamilyIsOfItsKey(front, key);
    if key in Keys(front) {
      FamilyIsDrawn(front, key);
      DrawnGrows(front, FamilyAfter(front, key).value, last);
    } else {
      assert forall i | 0 <= i < |front| :: KeyOf(front[i]) != key;
      FirstRowIsDrawn(front, last);
    }
  }

  lemma FirstRowIsDrawn(front: seq<Row>, row: Row)
    requires forall i | 0 <= i < |front| :: KeyOf(front[i]) != KeyOf(row)
    ensures Drawn(front + [row], Absorb(None, row))
  {
    hide KeyOf, DriveOf, BodyOf, ConfigKeyOf, ConfigurationOf;
    var rows := front + [row];
    assert rows[|front|] == row && forall i | 0 <= i < |front| :: rows[i] == front[i];
  }

  /** Adding a configuration changes nothing else. */
  lemma AbsorbCompares(known: Option<Family>, row: Row)
    ensures Absorb(known, row) == Compared(known, row).(configs := Absorb(known, row).configs)
  {
    hide Compared, ConfigKeyOf, ConfigurationOf;
  }

  lemma DrawnGrows(rows: seq<Row>, f: Family, row: Row)
    requires Drawn(rows, f)
    ensures Drawn(rows + [row], if KeyOf(row) == f.key then Absorb(Some(f), row) else f)
  {
    hide KeyOf, DriveOf, BodyOf, Absorb, Drawn, Compared;
    AbsorbCompares(Some(f), row);
    DrawnAfterRow(rows, f, row);
    if KeyOf(row) == f.key {
      DrawnDepends(rows + [row], Compared(Some(f), row), Absorb(Some(f), row));
    }
  }

  lemma DrawnDepends(rows: seq<Row>, f: Family, g: Family)
    requires Drawn(rows, f) && g == f.(configs := g.configs)
    ensures Drawn(rows, g)
  {
    hide KeyOf, DriveOf, BodyOf;
  }

  lemma DrawnAfterRow(rows: seq<Row>, f: Family, row: Row)
    requires Drawn(rows, f)
    ensures Drawn(rows + [row], if KeyOf(row) == f.key then Compared(Some(f), row) else f)
  {
    hide KeyOf, DriveOf, BodyOf, DriveDrawn, BodyDrawn, Compared;
    DriveDrawnAfterRow(rows, f, row);
    BodyDrawnAfterRow(rows, f, row);
  }

  lemma DriveDrawnAfterRow(rows: seq<Row>, f: Family, row: Row)
    requires DriveDrawn(rows, f)
    ensures DriveDrawn(rows + [row], if KeyOf(row) == f.key then Compared(Some(f), row) else f)
  {
    hide KeyOf, DriveOf, BodyOf;
    var more := rows + [row];
    assert more[|rows|] == row && forall i | 0 <= i < |rows| :: more[i] == rows[i];
    if f.drivetrain != "" {
      var i :| 0 <= i < |rows| && KeyOf(rows[i]) == f.key && DriveOf(rows[i]) == f.drivetrain;
      assert more[i] == rows[i];
    }
  }

  lemma BodyDrawnAfterRow(rows: seq<Row>, f: Family, row: Row)
    requires BodyDrawn(rows, f)
    ensures BodyDrawn(rows + [row], if KeyOf(row) == f.key then Compared(Some(f), row) else f)
  {
    hide KeyOf, DriveOf, BodyOf;
    var more := rows + [row];
    assert more[|rows|] == row && forall i | 0 <= i < |rows| :: more[i] == rows[i];
    if f.bodyStyle != "" {
      var i :| 0 <= i < |rows| && KeyOf(rows[i]) == f.key && BodyOf(rows[i]) == f.bodyStyle;
      assert more[i] == rows[i];
    }
  }

  /** A family has conflicts exactly when two of its rows disagree. */
  lemma {:induction false} ConflictsAreDisputes(rows: seq<Row>, key: string)
    requires key in Keys(rows)
    ensures FamilyAfter(rows, key).Some?
    ensures FamilyAfter(rows, key).value.conflicts != [] <==> Disputed(rows, key)
  {
    hide KeyOf, DriveOf, BodyOf, Disagree, Absorb;
    var front, last := rows[..|rows| - 1], rows[|rows| - 1];
    assert rows == front + [last];
    FamilyIsOfItsKey(rows, key);
    FamilyIsOfItsKey(front, key);
    DisputesGrow(front, last, key);
    if KeyOf(last) != key {
      KeysGrow(front, last);
      ConflictsAreDisputes(front, key);
    } else if key in Keys(front) {
      ConflictsAreDisputes(front, key);
      FamilyIsDrawn(front, key);
      AbsorbNotices(front, FamilyAfter(front, key).value, last);
    } else {
      FirstRowIsUndisputed(last);
      assert forall i | 0 <= i < |front| :: KeyOf(front[i]) != key;
    }
  }

  lemma FirstRowIsUndisputed(row: Row)
    ensures Absorb(None, row).conflicts == []
  {
  }

  lemma DisputesGrow(rows: seq<Row>, row: Row, key: string)
    ensures Disputed(rows + [row], key) <==>
      || Disputed(rows, key)
      || (KeyOf(row) == key && exists i | 0 <= i < |rows| :: KeyOf(rows[i]) == key && Disagree(rows[i], row))
  {
    hide KeyOf, Disagree;
    var more := rows + [row];
    assert more[|rows|] == row && forall i | 0 <= i < |rows| :: more[i] == rows[i];
    if Disputed(rows, key) {
      var i, j :| 0 <= i < j < |rows| && KeyOf(rows[i]) == key == KeyOf(rows[j]) && Disagree(rows[i], rows[j]);
      assert more[i] == rows[i] && more[j] == rows[j];
    }
    if KeyOf(row) == key && exists i | 0 <= i < |rows| :: KeyOf(rows[i]) == key && Disagree(rows[i], row) {
      var i :| 0 <= i < |rows| && KeyOf(rows[i]) == key && Disagree(rows[i], row);
      assert Disagree(more[i], more[|rows|]);
    }
  }

  /** While its rows agree, comparing with the family is comparing with every one of them. */
  lemma AbsorbNotices(rows: seq<Row>, f: Family, row: Row)
    requires KeyOf(row) == f.key && Drawn(rows, f)
    requires f.conflicts != [] <==> Disputed(rows, f.key)
    ensures Absorb(Some(f), row).conflicts != [] <==>
      || Disputed(rows, f.key)
      || exists i | 0 <= i < |rows| :: KeyOf(rows[i]) == f.key && Disagree(rows[i], row)
  {
    hide KeyOf, DriveOf, BodyOf;
    NoStyleIsNoBody();
    if f.conflicts == [] {
      forall i | 0 <= i < |rows| && KeyOf(rows[i]) == f.key
        ensures DriveOf(rows[i]) in {"", f.drivetrain} && BodyOf(rows[i]) in {"", f.bodyStyle}
      {
        AgreesWithFamily(rows, f, i);
      }
    }
  }

  lemma NoStyleIsNoBody()
    ensures forall r: Row | r.bodyStyle == "" :: BodyOf(r) == ""
  {
    assert Fields("") == [] && TrimSpace("") == "";
    assert TitleWords("") == "";
  }

  lemma AgreesWithFamily(rows: seq<Row>, f: Family, i: nat)
    requires Drawn(rows, f) && !Disputed(rows, f.key) && i < |rows| && KeyOf(rows[i]) == f.key
    ensures DriveOf(rows[i]) in {"", f.drivetrain} && BodyOf(rows[i]) in {"", f.bodyStyle}
  {
    hide KeyOf, DriveOf, BodyOf;
    NoStyleIsNoBody();
    if DriveOf(rows[i]) != "" {
      var k :| 0 <= k < |rows| && KeyOf(rows[k]) == f.key && DriveOf(rows[k]) == f.drivetrain;
      assert k < i ==> !Disagree(rows[k], rows[i]);
      assert i < k ==> !Disagree(rows[i], rows[k]);
    }
    if BodyOf(rows[i]) != "" {
      var k :| 0 <= k < |rows| && KeyOf(rows[k]) == f.key && BodyOf(rows[k]) == f.bodyStyle;
      assert k < i ==> !Disagree(rows[k], rows[i]);
      assert i < k ==> !Disagree(rows[i], rows[k]);
    }
  }

  /** A record needs review exactly when two rows of its family disagree. */
  lemma StatusIsExact(records: seq<Record>, rows: seq<Row>, r: Record)
    requires Summarises(records, rows) && r in records
    ensures r.status == NeedsReview <==> Disputed(rows, r.family.key)
  {
    hide KeyOf, FamilyAfter, Disputed;
    var i :| 0 <= i < |records| && records[i] == r;
    assert RecordKeys(records)[i] in Elements(RecordKeys(records));
    ConflictsAreDisputes(rows, r.family.key);
  }

  // ---------------------------------------------------------------- what a family says

  /** The rows of one key, in order. */
  function RowsOf(rows: seq<Row>, key: string): seq<Row> {
    if rows == [] then []
    else
      var last, before := rows[|rows| - 1], RowsOf(rows[..|rows| - 1], key);
      if KeyOf(last) == key then before + [last] else before
  }

  /** The first row that says something when read this way has the word. */
  function FirstStated(rows: seq<Row>, text: Row -> string): string {
    if rows == [] then "" else if text(rows[0]) != "" then text(rows[0]) else FirstStated(rows[1..], text)
  }

  lemma {:induction false} FirstStatedStays(rows: seq<Row>, row: Row, text: Row -> string)
    ensures FirstStated(rows + [row], text) ==
      if FirstStated(rows, text) != "" then FirstStated(rows, text) else text(row)
  {
    if rows == [] {
      assert ([] + [row])[1..] == [];
    } else {
      assert (rows + [row])[1..] == rows[1..] + [row];
      FirstStatedStays(rows[1..], row, text);
    }
  }

  function GivenId(row: Row): string {
    row.vehicleId
  }

  /** What a family states is what its rows state first, and its name is that of its first row. */
  ghost predicate SumsUp(f: Family, own: seq<Row>) {
    && own != []
    && f.year == Year(own[0].year) && f.make == MakeOf(own[0]) && f.model == ModelOf(own[0])
    && f.region == RegionOf(own[0])
    && f.vehicleId == FirstStated(own, GivenId)
    && f.drivetrain == FirstStated(own, DriveOf)
    && f.bodyStyle == FirstStated(own, BodyOf)
  }

  lemma AbsorbSumsUp(f: Family, own: seq<Row>, row: Row)
    requires SumsUp(f, own)
    ensures SumsUp(Absorb(Some(f), row), own + [row])
  {
    hide Year, MakeOf, ModelOf, RegionOf, KeyOf, DriveOf, BodyOf, FirstStated;
    assert (own + [row])[0] == own[0];
    FirstStatedStays(own, row, GivenId);
    FirstStatedStays(own, row, DriveOf);
    FirstStatedStays(own, row, BodyOf);
  }

  lemma FirstRowSumsUp(row: Row)
    ensures SumsUp(Absorb(None, row), [row])
  {
    hide Year, MakeOf, ModelOf, RegionOf, KeyOf, DriveOf, BodyOf;
    FirstStatedStays([], row, GivenId);
    FirstStatedStays([], row, DriveOf);
    FirstStatedStays([], row, BodyOf);
    assert [] + [row] == [row];
  }

  /** Every family is the summary of its own rows, whatever rows of other families stand between them. */
  lemma {:induction false} FamilyIsItsRows(rows: seq<Row>, key: string)
    ensures FamilyAfter(rows, key).Some? <==> RowsOf(rows, key) != []
    ensures FamilyAfter(rows, key).Some? ==> SumsUp(FamilyAfter(rows, key).value, RowsOf(rows, key))
  {
    hide KeyOf, Absorb, SumsUp;
    if rows != [] {
      var front, last := rows[..|rows| - 1], rows[|rows| - 1];
      FamilyIsItsRows(front, key);
      if KeyOf(last) == key {
        if FamilyAfter(front, key).Some? {
          AbsorbSumsUp(FamilyAfter(front, key).value, RowsOf(front, key), last);
        } else {
          FirstRowSumsUp(last);
          assert RowsOf(rows, key) == [last];
        }
      }
    }
  }

  // ---------------------------------------------------------------- which configurations a family has

  /** The row states a drivetrain or a body style, and not the one its family has from the rows before. */
  predicate Contradicts(own: seq<Row>, row: Row) {
    var drive, body := FirstStated(own, DriveOf), FirstStated(own, BodyOf);
    || (drive != "" && DriveOf(row) != "" && drive != DriveOf(row))
    || (body != "" && row.bodyStyle != "" && body != BodyOf(row))
  }

  /** The rows that contradict nothing before them. */
  function Accepted(own: seq<Row>): seq<Row> {
    if own == [] then []
    else
      var front, last := own[..|own| - 1], own[|own| - 1];
      Accepted(front) + (if Contradicts(front, last) then [] else [last])
  }

  /** The first row with a configuration key. */
  function FirstWith(rows: seq<Row>, k: string): Option<Row> {
    if rows == [] then None
    else
      var earlier := FirstWith(rows[..|rows| - 1], k);
      if earlier.Some? then earlier
      else if ConfigKeyOf(rows[|rows| - 1]) == k then Some(rows[|rows| - 1]) else None
  }

  /** The configurations are those of the accepted rows, each as its first row states it. */
  ghost predicate Configures(f: Family, own: seq<Row>) {
    forall k ::
      && (k in f.configs <==> FirstWith(Accepted(own), k).Some?)
      && (k in f.configs ==>
           f.configs[k] == ConfigurationOf(FirstWith(Accepted(own), k).value, f.configs[k].drivetrain))
  }

  /** A conflict is recorded for a row exactly when it contradicts the rows before it. */
  lemma ConflictIsContradiction(f: Family, own: seq<Row>, row: Row)
    requires SumsUp(f, own)
    ensures |Compared(Some(f), row).conflicts| == |f.conflicts| <==> !Contradicts(own, row)
  {
    hide Year, MakeOf, ModelOf, RegionOf, KeyOf, DriveOf, BodyOf, FirstStated;
  }

  lemma ConfiguresMore(f: Family, own: seq<Row>, row: Row)
    requires SumsUp(f, own) && Configures(f, own)
    ensures Configures(Absorb(Some(f), row), own + [row])
  {
    hide SumsUp, Contradicts, Compared, ConfigKeyOf, ConfigurationOf, FirstWith, Accepted;
    ConflictIsContradiction(f, own, row);
    ComparedKeepsConfigs(f, row);
    AcceptedSnoc(own, row);
    forall k
      ensures FirstWith(Accepted(own + [row]), k) ==
        if Contradicts(own, row) || FirstWith(Accepted(own), k).Some? then FirstWith(Accepted(own), k)
        else if ConfigKeyOf(row) == k then Some(row) else None
    {
      FirstWithSnoc(Accepted(own), row, k);
    }
    ConfigurationHasKey(row);
  }

  lemma ComparedKeepsConfigs(f: Family, row: Row)
    ensures Compared(Some(f), row).configs == f.configs
  {
  }

  lemma ConfigurationHasKey(row: Row)
    ensures forall d, e :: ConfigurationOf(row, d).(drivetrain := e) == ConfigurationOf(row, e)
    ensures forall d :: ConfigurationOf(row, d).drivetrain == d
  {
  }

  lemma AcceptedSnoc(own: seq<Row>, row: Row)
    ensures Accepted(own + [row]) == Accepted(own) + (if Contradicts(own, row) then [] else [row])
  {
    hide Contradicts;
    assert (own + [row])[..|own|] == own;
  }

  lemma FirstWithSnoc(rows: seq<Row>, row: Row, k: string)
    ensures FirstWith(rows + [row], k) ==
      if FirstWith(rows, k).Some? then FirstWith(rows, k) else if ConfigKeyOf(row) == k then Some(row) else None
    ensures FirstWith(rows + [], k) == FirstWith(rows, k)
  {
    hide ConfigKeyOf;
    assert (rows + [row])[..|rows|] == rows && rows + [] == rows;
  }

  lemma FirstRowConfigures(row: Row)
    ensures Configures(Absorb(None, row), [row])
  {
    hide Year, MakeOf, ModelOf, RegionOf, KeyOf, DriveOf, BodyOf, ConfigKeyOf, ConfigurationOf;
    AcceptedSnoc([], row);
    assert [] + [row] == [row];
    ConfigurationHasKey(row);
    forall k
      ensures FirstWith([row], k) == if ConfigKeyOf(row) == k then Some(row) else None
    {
      FirstWithSnoc([], row, k);
    }
  }

  /** A family has one configuration for each key among its rows that contradict nothing before them. */
  lemma {:induction false} ConfigurationsAreExact(rows: seq<Row>, key: string)
    ensures FamilyAfter(rows, key).Some? ==> Configures(FamilyAfter(rows, key).value, RowsOf(rows, key))
  {
    hide KeyOf, Absorb, SumsUp, Configures;
    if rows != [] {
      var front, last := rows[..|rows| - 1], rows[|rows| - 1];
      ConfigurationsAreExact(front, key);
      FamilyIsItsRows(front, key);
      if KeyOf(last) == key {
        if FamilyAfter(front, key).Some? {
          ConfiguresMore(FamilyAfter(front, key).value, RowsOf(front, key), last);
        } else {
          FirstRowConfigures(last);
          assert RowsOf(rows, key) == [last];
        }
      }
    }
  }
}
