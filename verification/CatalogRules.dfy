/** When two records share an id, how labels are spelled, and what it means to be equal up to case. */
module CatalogRules {
  import opened Texts
  import opened Slugs
  import opened Catalogs
  import IdentityKeys

  // ---------------------------------------------------------------- case

  /** The same character, or the same of the 26 letters, one small and one capital. */
  ghost predicate SameLetter(c: char, d: char) {
    || c == d
    || (0x41 <= c as int < 0x5b && d as int == c as int + 0x20)
    || (0x41 <= d as int < 0x5b && c as int == d as int + 0x20)
  }

  ghost predicate SameLetters(a: string, b: string) {
    |a| == |b| && forall i | 0 <= i < |a| :: SameLetter(a[i], b[i])
  }

  lemma FoldIsExact(a: string, b: string)
    ensures EqualFold(a, b) <==> SameLetters(a, b)
  {
    if EqualFold(a, b) {
      assert |a| == |Lower(a)| == |b|;
      forall i | 0 <= i < |a|
        ensures SameLetter(a[i], b[i])
      {
        assert Lower(a)[i] == Lower(b)[i];
      }
    }
  }

  /** A selector means a name that is the same up to case, or one of the same words if it has any. */
  ghost predicate Selects(selector: string, name: string) {
    SameLetters(name, selector) || (Words(selector) != [] && Words(name) == Words(selector))
  }

  lemma SelectorsAreExact(name: string, selector: string)
    ensures SelectorMatches(name, selector) <==> Selects(selector, name)
  {
    hide Runs, Join, EqualFold, SameLetters;
    FoldIsExact(name, selector);
    SameSlugIsSameWords(name, selector);
    SameSlugIsSameWords("", selector);
    RunsOfNothing();
  }

  /** A record is listed exactly for its year, for what selects its make and its model, and for its region or none. */
  lemma MatchesAreExact(record: Configuration, year: int, make: string, model: string, region: string)
    ensures Matches(record, year, make, model, region) <==>
      && record.year == year && Selects(make, record.make) && Selects(model, record.model)
      && (region == "" || SameLetters(record.region, region))
    ensures MakeMatches(record, year, make, region) <==>
      record.year == year && Selects(make, record.make) && (region == "" || SameLetters(record.region, region))
  {
    hide SelectorMatches, Selects, EqualFold, SameLetters;
    SelectorsAreExact(record.make, make);
    SelectorsAreExact(record.model, model);
    FoldIsExact(record.region, region);
  }

  // ---------------------------------------------------------------- labels

  /** The parts of a text between white space and dashes, in small letters. */
  function PartsOf(value: string): seq<string> {
    LowerAll(Fields(DashesToSpaces(TrimSpace(value))))
  }

  lemma LoweredRuns(parts: seq<string>)
    requires forall w | w in parts :: IsRun(IsInk, w)
    ensures forall w | w in LowerAll(parts) :: IsRun(IsInk, w)
  {
    forall w | w in LowerAll(parts)
      ensures IsRun(IsInk, w)
    {
      var i :| 0 <= i < |parts| && LowerAll(parts)[i] == w;
      assert parts[i] in parts;
      forall c | c in w
        ensures IsInk(c)
      {
        var k :| 0 <= k < |w| && w[k] == c;
        assert parts[i][k] in parts[i];
      }
    }
  }

  lemma JoinedParts(value: string, parts: seq<string>)
    requires forall w | w in parts :: IsRun(IsInk, w)
    ensures Lower(Join(Fields(DashesToSpaces(TrimSpace(value))), ' ')) == Join(parts, ' ') <==> PartsOf(value) == parts
  {
    hide Runs, Join, Trim, DashesToSpaces, Lower;
    var fields := Fields(DashesToSpaces(TrimSpace(value)));
    RunsAreRuns(IsInk, DashesToSpaces(TrimSpace(value)));
    IdentityKeys.LowerOfJoin(fields, ' ');
    LoweredRuns(fields);
    RunsOfJoin(IsInk, LowerAll(fields), ' ');
    RunsOfJoin(IsInk, parts, ' ');
  }

  /** What a path holds is the trimmed text with a space in place of each dash. */
  lemma PathValuesAreExact(value: string)
    ensures |PathValue(value)| == |TrimSpace(value)|
    ensures forall i | 0 <= i < |TrimSpace(value)| ::
      PathValue(value)[i] == if TrimSpace(value)[i] as int == 0x2d then 0x20 as char else TrimSpace(value)[i]
  {
    hide Trim;
  }

  /** Four makes have their own label, however they are written; any other keeps its text. */
  lemma LabelsAreExact(value: string)
    ensures PartsOf(value) == ["gmc"] ==> MakeLabel(value) == "GMC"
    ensures PartsOf(value) == ["mercedes", "benz"] ==> MakeLabel(value) == "Mercedes-Benz"
    ensures PartsOf(value) == ["nissan", "datsun"] ==> MakeLabel(value) == "Nissan-Datsun"
    ensures PartsOf(value) == ["nissan", "diesel", "truck", "ud"] ==> MakeLabel(value) == "Nissan Diesel Truck - UD"
    ensures && PartsOf(value) !in [["gmc"], ["mercedes", "benz"], ["nissan", "datsun"]]
            && PartsOf(value) != ["nissan", "diesel", "truck", "ud"] ==>
      MakeLabel(value) == TrimSpace(value)
  {
    hide Runs, Join, Trim, DashesToSpaces, PartsOf;
    JoinedParts(value, ["gmc"]);
    JoinedParts(value, ["mercedes", "benz"]);
    JoinedParts(value, ["nissan", "datsun"]);
    JoinedParts(value, ["nissan", "diesel", "truck", "ud"]);
    KeysAreJoined();
  }

  lemma KeysAreJoined()
    ensures Join(["gmc"], ' ') == "gmc" && Join(["mercedes", "benz"], ' ') == "mercedes benz"
    ensures Join(["nissan", "datsun"], ' ') == "nissan datsun"
    ensures Join(["nissan", "diesel", "truck", "ud"], ' ') == "nissan diesel truck ud"
  {
    JoinUnfold(["mercedes", "benz"], ' ');
    JoinUnfold(["nissan", "datsun"], ' ');
    var parts := ["nissan", "diesel", "truck", "ud"];
    JoinUnfold(parts, ' ');
    JoinUnfold(parts[1..], ' ');
    JoinUnfold(parts[2..], ' ');
    JoinUnfold(parts[3..], ' ');
    assert parts[1..] == ["diesel", "truck", "ud"] && parts[2..] == ["truck", "ud"] && parts[3..] == ["ud"];
  }

  // ---------------------------------------------------------------- ids

  function Size(n: int): nat {
    if n < 0 then -n else n
  }

  lemma IntegersDiffer(m: int, n: int)
    ensures Integer(m) == Integer(n) <==> m == n
  {
    hide Decimal;
    DecimalIsNumeral(Size(m));
    DecimalIsNumeral(Size(n));
    assert Decimal(Size(m))[0] in Decimal(Size(m)) && Decimal(Size(n))[0] in Decimal(Size(n));
    assert m < 0 ==> Integer(m)[0] == '-' && Integer(m)[1..] == Decimal(Size(m));
    assert n < 0 ==> Integer(n)[0] == '-' && Integer(n)[1..] == Decimal(Size(n));
  }

  lemma IntegerIsOneWord(n: int)
    ensures Runs(IsAlnum, Integer(n)) == [Decimal(Size(n))]
  {
    hide Runs, Decimal;
    IdentityKeys.DigitsAreOneWord(Size(n));
    if n < 0 {
      RunsSplit(IsAlnum, "", '-', Decimal(-n));
      RunsOfNothing();
      assert "" + ['-'] + Decimal(-n) == Integer(n);
    }
  }

  /** The words of an id are those of the make, of the model, the digits of the year, and those of the trim. */
  lemma IdSpellsTheRecord(record: Configuration)
    ensures Runs(IsAlnum, ConfigurationId(record)) ==
      Words(record.make) + Words(record.model) + [Decimal(Size(record.year))] + Words(record.trim)
  {
    hide Runs, Join, Slug, Integer;
    IdentityKeys.SlugHasWords(record.make);
    IdentityKeys.SlugHasWords(record.model);
    IdentityKeys.SlugHasWords(record.trim);
    IntegerIsOneWord(record.year);
    IdentityKeys.RunsOfDashed([Slug(record.make), Slug(record.model), Integer(record.year), Slug(record.trim)]);
    IdentityKeys.RunsOfFour(Slug(record.make), Slug(record.model), Integer(record.year), Slug(record.trim));
  }

  lemma IdIsJoined(record: Configuration)
    ensures ConfigurationId(record) ==
      Slug(record.make) + "-" + Slug(record.model) + "-" + Integer(record.year) + "-" + Slug(record.trim)
  {
    hide Slug, Join, Integer;
    IdentityKeys.JoinThree(Slug(record.make), Slug(record.model), Integer(record.year), Slug(record.trim));
  }

  lemma MiddleIsTold(front: string, x: string, y: string, back: string)
    ensures front + x + back == front + y + back <==> x == y
  {
    if front + x + back == front + y + back {
      assert |x| == |y|;
      assert x == (front + x + back)[|front|..|front| + |x|];
      assert y == (front + y + back)[|front|..|front| + |y|];
    }
  }

  /** Records that differ in one of the four have one id exactly when they do not differ in its words, or its year. */
  lemma IdsTellApart(a: Configuration, b: Configuration)
    ensures Words(a.model) == Words(b.model) && a.year == b.year && Words(a.trim) == Words(b.trim) ==>
      (ConfigurationId(a) == ConfigurationId(b) <==> Words(a.make) == Words(b.make))
    ensures Words(a.make) == Words(b.make) && a.year == b.year && Words(a.trim) == Words(b.trim) ==>
      (ConfigurationId(a) == ConfigurationId(b) <==> Words(a.model) == Words(b.model))
    ensures Words(a.make) == Words(b.make) && Words(a.model) == Words(b.model) && Words(a.trim) == Words(b.trim) ==>
      (ConfigurationId(a) == ConfigurationId(b) <==> a.year == b.year)
    ensures Words(a.make) == Words(b.make) && Words(a.model) == Words(b.model) && a.year == b.year ==>
      (ConfigurationId(a) == ConfigurationId(b) <==> Words(a.trim) == Words(b.trim))
  {
    hide Slug, Runs, Integer, ConfigurationId;
    SameSlugIsSameWords(a.make, b.make);
    SameSlugIsSameWords(a.model, b.model);
    SameSlugIsSameWords(a.trim, b.trim);
    IntegersDiffer(a.year, b.year);
    IdIsJoined(a);
    IdIsJoined(b);
    OneDiffers(Slug(a.make), Slug(b.make), Slug(a.model), Slug(b.model), Integer(a.year), Integer(b.year),
               Slug(a.trim), Slug(b.trim));
  }

  lemma OneDiffers(m: string, m': string, n: string, n': string, y: string, y': string, t: string, t': string)
    ensures n == n' && y == y' && t == t' ==>
      (m + "-" + n + "-" + y + "-" + t == m' + "-" + n' + "-" + y' + "-" + t' <==> m == m')
    ensures m == m' && y == y' && t == t' ==>
      (m + "-" + n + "-" + y + "-" + t == m' + "-" + n' + "-" + y' + "-" + t' <==> n == n')
    ensures m == m' && n == n' && t == t' ==>
      (m + "-" + n + "-" + y + "-" + t == m' + "-" + n' + "-" + y' + "-" + t' <==> y == y')
    ensures m == m' && n == n' && y == y' ==>
      (m + "-" + n + "-" + y + "-" + t == m' + "-" + n' + "-" + y' + "-" + t' <==> t == t')
  {
    Regrouped(m, n, y, t);
    Regrouped(m', n', y', t');
    MiddleIsTold("", m, m', "-" + n + "-" + y + "-" + t);
    MiddleIsTold(m + "-", n, n', "-" + y + "-" + t);
    MiddleIsTold(m + "-" + n + "-", y, y', "-" + t);
    MiddleIsTold(m + "-" + n + "-" + y + "-", t, t', "");
  }

  lemma Regrouped(m: string, n: string, y: string, t: string)
    ensures m + "-" + n + "-" + y + "-" + t == "" + m + ("-" + n + "-" + y + "-" + t)
    ensures m + "-" + n + "-" + y + "-" + t == m + "-" + n + ("-" + y + "-" + t)
    ensures m + "-" + n + "-" + y + "-" + t == m + "-" + n + "-" + y + ("-" + t)
    ensures m + "-" + n + "-" + y + "-" + t == m + "-" + n + "-" + y + "-" + t + ""
  {
  }

  /** The same words divided otherwise between make and model have one id, and the later record replaces the earlier. */
  lemma DividedOtherwise() returns (a: Configuration, b: Configuration)
    ensures a == Configuration("", "", 2020, "Land", "Rover Sport", "", "US")
    ensures b == Configuration("", "", 2020, "Land Rover", "Sport", "", "US")
    ensures Completed(a).id == Completed(b).id
    ensures Slug(a.make) != Slug(b.make) && Slug(a.model) != Slug(b.model)
  {
    hide Runs, Integer, Slug, Lower, Join, ConfigurationId;
    a := Configuration("", "", 2020, "Land", "Rover Sport", "", "US");
    b := Configuration("", "", 2020, "Land Rover", "Sport", "", "US");
    IdIsJoined(a);
    IdIsJoined(b);
    LandRoverSport();
    EitherWay();
    var rest := Integer(2020);
    assert ConfigurationId(a) == "land" + "-" + "rover-sport" + "-" + rest + "-" + Slug("");
    assert ConfigurationId(b) == "land-rover" + "-" + "sport" + "-" + rest + "-" + Slug("");
  }

  lemma EitherWay()
    ensures "land" + "-" + "rover-sport" == "land-rover" + "-" + "sport"
  {
  }

  lemma LandRoverSport()
    ensures Slug("Land") == "land" && Slug("Rover Sport") == "rover-sport"
    ensures Slug("Land Rover") == "land-rover" && Slug("Sport") == "sport"
  {
    hide Runs, Lower, Join;
    InSmallLetters();
    IdentityKeys.OneWord("land");
    IdentityKeys.OneWord("rover");
    IdentityKeys.OneWord("sport");
    RunsSplit(IsAlnum, "land", ' ', "rover");
    RunsSplit(IsAlnum, "rover", ' ', "sport");
    JoinUnfold(["land"], '-');
    JoinUnfold(["sport"], '-');
    JoinPair("land", "rover");
    JoinPair("rover", "sport");
    assert Words("Rover Sport") == ["rover", "sport"] && Words("Land Rover") == ["land", "rover"];
  }

  lemma InSmallLetters()
    ensures Lower("Land") == "land" && Lower("Sport") == "sport"
    ensures Lower("Rover Sport") == "rover" + [' '] + "sport" && Lower("Land Rover") == "land" + [' '] + "rover"
  {
  }

  lemma JoinPair(a: string, b: string)
    ensures Join([a, b], '-') == a + ['-'] + b
  {
    assert [a, b][1..] == [b];
  }
}
