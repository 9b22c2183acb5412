/**
 Which rows belong together: the key of a row, its words, and what its year, make and region count as, stated on the
 fields of the row.
 */
module IdentityKeys {
  import opened Wrappers
  import opened Texts
  import opened Slugs
  import opened Identities

  // ---------------------------------------------------------------- case

  /** The 26 letters from A and the 26 from a go into each other, and every other character stays. */
  lemma CaseIsExact(c: char)
    ensures 0x41 <= c as int < 0x5b ==> LowerChar(c) as int == c as int + 0x20 && UpperChar(c) == c
    ensures 0x61 <= c as int < 0x7b ==> UpperChar(c) as int == c as int - 0x20 && LowerChar(c) == c
    ensures !(0x41 <= c as int < 0x5b) && !(0x61 <= c as int < 0x7b) ==> LowerChar(c) == c == UpperChar(c)
  {
  }

  // ---------------------------------------------------------------- the words of a row

  lemma LowerOfTitle(s: string)
    ensures Lower(Title(s)) == Lower(TrimSpace(s))
  {
    var t := TrimSpace(s);
    if t != "" {
      assert t == [t[0]] + t[1..];
      assert Title(s) == [UpperChar(t[0])] + Lower(t[1..]);
    }
  }

  lemma {:induction false} LowerOfJoin(parts: seq<string>, sep: char)
    requires LowerChar(sep) == sep
    ensures Lower(Join(parts, sep)) == Join(LowerAll(parts), sep)
  {
    hide Join;
    JoinUnfold(parts, sep);
    JoinUnfold(LowerAll(parts), sep);
    if |parts| > 1 {
      LowerOfJoin(parts[1..], sep);
      assert LowerAll(parts)[1..] == LowerAll(parts[1..]);
    }
  }

  lemma SameLowerSameWords(a: string, b: string)
    requires Lower(a) == Lower(b)
    ensures Words(a) == Words(b)
  {
  }

  lemma TitleKeepsWords(s: string)
    ensures Words(Title(s)) == Words(s)
  {
    LowerOfTitle(s);
    SameLowerSameWords(Title(s), TrimSpace(s));
    TrimSpaceKeepsWords(s);
  }

  lemma TitleWordsKeepWords(s: string)
    ensures Words(TitleWords(s)) == Words(s)
  {
    hide Runs, Join, Trim, Title;
    var fields := Fields(TrimSpace(s));
    RunsAreRuns(IsInk, TrimSpace(s));
    forall i | 0 <= i < |fields|
      ensures LowerAll(TitleAll(fields))[i] == LowerAll(fields)[i]
    {
      assert fields[i] in fields;
      LowerOfTitle(fields[i]);
      RunIsTrimmed(fields[i]);
    }
    assert LowerAll(TitleAll(fields)) == LowerAll(fields);
    LowerOfJoin(TitleAll(fields), ' ');
    LowerOfJoin(fields, ' ');
    SameLowerSameWords(TitleWords(s), Join(fields, ' '));
    FieldsKeepWords(TrimSpace(s));
    TrimSpaceKeepsWords(s);
  }

  lemma RunIsTrimmed(w: string)
    requires IsRun(IsInk, w)
    ensures TrimSpace(w) == w
  {
    assert w[0] in w && w[|w| - 1] in w;
  }

  lemma RegionKeepsWords(row: Row)
    ensures Words(RegionOf(row)) == Words(row.region)
  {
    var t := TrimSpace(row.region);
    assert Lower(Upper(t)) == Lower(t);
    SameLowerSameWords(Upper(t), t);
    TrimSpaceKeepsWords(row.region);
  }

  /** The words of the make; "chevy" alone, in any case and with any space around it, is Chevrolet. */
  function MakeWords(row: Row): seq<string> {
    if Lower(TrimSpace(row.make)) == "chevy" then ["chevrolet"] else Words(row.make)
  }

  lemma MakeKeepsWords(row: Row)
    ensures Words(MakeOf(row)) == MakeWords(row)
  {
    hide Runs, Trim;
    LowerOfTitle(row.make);
    TitleKeepsWords(row.make);
    ChevroletIsOneWord();
  }

  lemma ChevroletIsOneWord()
    ensures Words("Chevrolet") == ["chevrolet"]
  {
    assert Lower("Chevrolet") == "chevrolet";
    assert forall c | c in "chevrolet" :: IsAlnum(c);
    RunIsOne(IsAlnum, "chevrolet");
  }

  lemma DigitsAreOneWord(n: nat)
    ensures Runs(IsAlnum, Decimal(n)) == [Decimal(n)]
  {
    DecimalIsNumeral(n);
    assert forall c | c in Decimal(n) :: IsAlnum(c);
    RunIsOne(IsAlnum, Decimal(n));
  }

  /** What a key is made of. */
  function KeyWords(row: Row): seq<string> {
    MakeWords(row) + Words(row.model) + [Integer(Year(row.year))] + Words(row.region)
  }

  lemma SlugHasWords(s: string)
    ensures Runs(IsAlnum, Slug(s)) == Words(s)
  {
    hide Runs, Join;
    RunsAreRuns(IsAlnum, Lower(s));
    RunsOfJoin(IsAlnum, Words(s), '-');
  }

  lemma {:induction false} RunsOfDashed(parts: seq<string>)
    ensures Runs(IsAlnum, Join(parts, '-')) == RunsOfAll(parts)
  {
    hide Runs, Join;
    JoinUnfold(parts, '-');
    if parts == [] {
      RunsUnfold(IsAlnum, "");
    } else if |parts| == 1 {
      assert RunsOfAll(parts[1..]) == [];
    } else {
      RunsSplit(IsAlnum, parts[0], '-', Join(parts[1..], '-'));
      RunsOfDashed(parts[1..]);
    }
  }

  function RunsOfAll(parts: seq<string>): seq<string> {
    if parts == [] then [] else Runs(IsAlnum, parts[0]) + RunsOfAll(parts[1..])
  }

  /** The words of the key are those of the make, of the model, the year, and those of the region. */
  lemma KeySpellsTheRow(row: Row)
    requires ValidRow(row)
    ensures Runs(IsAlnum, KeyOf(row)) == KeyWords(row)
  {
    hide Runs, Join, Trim, MakeOf, ModelOf, MakeWords, Slug;
    var year, region := Decimal(Year(row.year)), RegionOf(row);
    var parts := [Slug(MakeOf(row)), Slug(ModelOf(row)), year];
    SlugHasWords(MakeOf(row));
    SlugHasWords(ModelOf(row));
    SlugHasWords(region);
    MakeKeepsWords(row);
    ModelKeepsWords(row);
    RegionKeepsWords(row);
    DigitsAreOneWord(Year(row.year));
    RunsOfDashed(if region == "" then parts else parts + [Slug(region)]);
    if region == "" {
      NothingHasNoWords();
      RunsOfThree(parts[0], parts[1], year);
    } else {
      assert parts + [Slug(region)] == [parts[0], parts[1], year, Slug(region)];
      RunsOfFour(parts[0], parts[1], year, Slug(region));
    }
  }

  lemma RunsOfThree(a: string, b: string, c: string)
    ensures RunsOfAll([a, b, c]) == Runs(IsAlnum, a) + Runs(IsAlnum, b) + Runs(IsAlnum, c)
  {
    hide Runs;
    assert [a, b, c][1..] == [b, c] && [b, c][1..] == [c] && [c][1..] == [];
    assert RunsOfAll([c]) == Runs(IsAlnum, c) && RunsOfAll([b, c]) == Runs(IsAlnum, b) + Runs(IsAlnum, c);
  }

  lemma RunsOfFour(a: string, b: string, c: string, d: string)
    ensures RunsOfAll([a, b, c, d]) == Runs(IsAlnum, a) + Runs(IsAlnum, b) + Runs(IsAlnum, c) + Runs(IsAlnum, d)
  {
    hide Runs;
    assert [a, b, c, d][1..] == [b, c, d];
    RunsOfThree(b, c, d);
  }

  lemma ModelKeepsWords(row: Row)
    ensures Words(ModelOf(row)) == Words(row.model)
  {
    TitleWordsKeepWords(row.model);
  }

  lemma NothingHasNoWords()
    ensures Words("") == []
  {
  }

  // ---------------------------------------------------------------- who shares a key

  /** Make and model have words, and so does the region if there is one. */
  predicate IsWordy(row: Row) {
    MakeWords(row) != [] && Words(row.model) != [] && (TrimSpace(row.region) == "" || Words(row.region) != [])
  }

  /** The key of such a row is its words, joined by dashes. */
  lemma KeyIsItsWords(row: Row)
    requires ValidRow(row) && IsWordy(row)
    ensures KeyOf(row) == Join(KeyWords(row), '-')
  {
    hide Runs, Join, Trim, MakeOf, ModelOf, MakeWords;
    var year, region := Decimal(Year(row.year)), RegionOf(row);
    MakeKeepsWords(row);
    ModelKeepsWords(row);
    RegionKeepsWords(row);
    var make, model, words := MakeWords(row), Words(row.model), Words(row.region);
    JoinTwo(Slug(MakeOf(row)), Slug(ModelOf(row)), year);
    if region == "" {
      NothingHasNoWords();
      JoinOfBoth(make + model, [year]);
      JoinOfBoth(make, model);
      JoinUnfold([year], '-');
      assert KeyWords(row) == make + model + [year];
    } else {
      JoinThree(Slug(MakeOf(row)), Slug(ModelOf(row)), year, Slug(region));
      RegionIsBlank(row);
      JoinOfBoth(make + model + [year], words);
      JoinOfBoth(make + model, [year]);
      JoinOfBoth(make, model);
      JoinUnfold([year], '-');
      assert [Slug(MakeOf(row)), Slug(ModelOf(row)), year] + [Slug(region)]
          == [Slug(MakeOf(row)), Slug(ModelOf(row)), year, Slug(region)];
    }
  }

  lemma RegionIsBlank(row: Row)
    ensures RegionOf(row) == "" <==> TrimSpace(row.region) == ""
  {
  }

  lemma JoinTwo(a: string, b: string, c: string)
    ensures Join([a, b, c], '-') == a + "-" + b + "-" + c
  {
    assert [a, b, c][1..] == [b, c] && [b, c][1..] == [c];
    JoinUnfold([a, b, c], '-');
    JoinUnfold([b, c], '-');
    JoinUnfold([c], '-');
  }

  lemma JoinThree(a: string, b: string, c: string, d: string)
    ensures Join([a, b, c, d], '-') == a + "-" + b + "-" + c + "-" + d
  {
    assert [a, b, c, d][1..] == [b, c, d];
    JoinUnfold([a, b, c, d], '-');
    JoinTwo(b, c, d);
  }

  lemma {:induction false} JoinOfBoth(a: seq<string>, b: seq<string>)
    requires a != [] && b != []
    ensures Join(a + b, '-') == Join(a, '-') + "-" + Join(b, '-')
  {
    hide Join;
    JoinUnfold(a, '-');
    JoinUnfold(a + b, '-');
    if |a| == 1 {
      assert (a + b)[1..] == b;
    } else {
      assert (a + b)[1..] == a[1..] + b;
      JoinOfBoth(a[1..], b);
    }
  }

  /** Two such rows share a key exactly when these lists are equal. */
  lemma KeysAreTheirWords(a: Row, b: Row)
    requires ValidRow(a) && ValidRow(b) && IsWordy(a) && IsWordy(b)
    ensures KeyOf(a) == KeyOf(b) <==> KeyWords(a) == KeyWords(b)
  {
    KeySpellsTheRow(a);
    KeySpellsTheRow(b);
    KeyIsItsWords(a);
    KeyIsItsWords(b);
  }

  lemma NumeralsDiffer(m: nat, n: nat)
    ensures Decimal(m) == Decimal(n) <==> m == n
  {
    DecimalIsNumeral(m);
    DecimalIsNumeral(n);
  }

  /** So rows alike in make, model and region share one exactly when they are of the same year. */
  lemma YearsAreApart(a: Row, b: Row)
    requires ValidRow(a) && ValidRow(b) && IsWordy(a) && IsWordy(b)
    requires MakeWords(a) == MakeWords(b) && Words(a.model) == Words(b.model) && Words(a.region) == Words(b.region)
    ensures KeyOf(a) == KeyOf(b) <==> Year(a.year) == Year(b.year)
  {
    hide Runs, Join, Trim, MakeWords;
    KeysAreTheirWords(a, b);
    NumeralsDiffer(Year(a.year), Year(b.year));
    var front := MakeWords(a) + Words(a.model);
    assert KeyWords(a)[|front|] == Decimal(Year(a.year)) && KeyWords(b)[|front|] == Decimal(Year(b.year));
  }

  /** The same words divided otherwise are the same key: a year in the model, another in the region. */
  lemma DividedOtherwise() returns (a: Row, b: Row)
    ensures a == Row(IntYear(2019), "Ford", "Focus", "2020", "", "", "", None, "", "") && ValidRow(a)
    ensures b == Row(IntYear(2020), "Ford", "Focus 2019", "", "", "", "", None, "", "") && ValidRow(b)
    ensures KeyOf(a) == KeyOf(b) && Year(a.year) != Year(b.year)
  {
    hide Runs, Trim, Lower, MakeWords, KeyOf, Decimal;
    a := Row(IntYear(2019), "Ford", "Focus", "2020", "", "", "", None, "", "");
    b := Row(IntYear(2020), "Ford", "Focus 2019", "", "", "", "", None, "", "");
    FordIsTheMake(a);
    FordIsTheMake(b);
    WordsOfTheModels();
    WordsOfTheRegions();
    FourDigits();
    assert KeyWords(a) == ["ford", "focus", "2019", "2020"] == KeyWords(b);
    KeysAreTheirWords(a, b);
  }

  lemma FordIsTheMake(row: Row)
    requires row.make == "Ford"
    ensures MakeWords(row) == ["ford"] && TrimSpace(row.make) != ""
  {
    var make := "Ford";
    assert IsInk(make[0]) && IsInk(make[3]);
    RunIsTrimmedAtBothEnds(make);
    assert Lower(make) == "ford";
    OneWord("ford");
  }

  lemma RunIsTrimmedAtBothEnds(s: string)
    requires s != "" && IsInk(s[0]) && IsInk(s[|s| - 1])
    ensures TrimSpace(s) == s
  {
  }

  lemma OneWord(w: string)
    requires w != "" && forall i | 0 <= i < |w| :: IsAlnum(w[i])
    ensures Runs(IsAlnum, w) == [w]
  {
    RunIsOne(IsAlnum, w);
  }

  lemma WordsOfTheModels()
    ensures Words("Focus") == ["focus"] && Words("Focus 2019") == ["focus", "2019"]
    ensures TrimSpace("Focus") != "" && TrimSpace("Focus 2019") != ""
  {
    hide Runs, Trim;
    var a, b := "Focus", "Focus 2019";
    assert IsInk(a[0]) && IsInk(a[4]) && IsInk(b[0]) && IsInk(b[9]);
    RunIsTrimmedAtBothEnds(a);
    RunIsTrimmedAtBothEnds(b);
    assert Lower(a) == "focus" && Lower(b) == "focus" + [' '] + "2019";
    OneWord("focus");
    OneWord("2019");
    RunsSplit(IsAlnum, "focus", ' ', "2019");
  }

  lemma WordsOfTheRegions()
    ensures Words("2020") == ["2020"] && Words("") == [] && TrimSpace("") == ""
  {
    assert Lower("2020") == "2020";
    OneWord("2020");
  }

  lemma FourDigits()
    ensures Decimal(2019) == "2019" && Decimal(2020) == "2020"
  {
    assert Decimal(2) == "2" && Decimal(20) == "20" && Decimal(201) == "201" && Decimal(202) == "202";
  }

  // ---------------------------------------------------------------- years

  /** A year of two digits falls into the hundred years from 1931; any other integer stands for itself. */
  lemma YearsAreExact(n: int)
    ensures 0 <= n < 100 ==> 1931 <= Year(IntYear(n)) <= 2030 && (Year(IntYear(n)) - n) % 100 == 0
    ensures !(0 <= n < 100) ==> Year(IntYear(n)) == n
    ensures Year(OtherYear) == 0
  {
  }

  /** A number with a fraction counts as the integer towards zero. */
  lemma FractionsAreDropped(x: real) returns (n: int)
    ensures Year(FloatYear(x)) == Year(IntYear(n)) && IsTowardsZero(x, n)
  {
    n := Truncated(x);
  }

  ghost predicate IsTowardsZero(x: real, n: int) {
    if x >= 0.0 then 0 <= n && n as real <= x < n as real + 1.0 else n <= 0 && n as real - 1.0 < x <= n as real
  }

  /** A text counts as the 64-bit number that it spells, with any sign and space around it; otherwise as no year. */
  lemma TextYearsAreExact(text: string)
    ensures var t := TrimSpace(text);
      (forall n | Spells(t, n) :: Year(TextYear(text)) == Year(IntYear(n)))
      && ((forall n :: !Spells(t, n)) ==> Year(TextYear(text)) == 0)
  {
    hide Trim;
    var t := TrimSpace(text);
    forall n
      ensures Atoi(t) == Some(n) <==> Spells(t, n)
    {
      NumbersAreExact(t, n);
    }
    assert Atoi(t).Some? ==> Spells(t, Atoi(t).value);
  }

  /** An optional sign, then nothing but digits, at least one, of this value. */
  ghost predicate Spells(text: string, n: int) {
    && -0x8000_0000_0000_0000 <= n < 0x8000_0000_0000_0000
    && var signed := text != "" && (text[0] == '+' || text[0] == '-');
    var digits := if signed then text[1..] else text;
    && digits != "" && (forall i | 0 <= i < |digits| :: '0' <= digits[i] <= '9')
    && (forall c | c in digits :: IsDigit(c))
    && var size: int := Value(digits);
    n == if text[0] == '-' then -size else size
  }

  lemma NumbersAreExact(text: string, n: int)
    ensures Atoi(text) == Some(n) <==> Spells(text, n)
  {
    hide Value;
    var signed := text != "" && text[0] in "+-";
    Signs(text);
    var digits := if signed then text[1..] else text;
    AllDigits(digits);
    if digits == "" || exists c | c in digits :: !IsDigit(c) {
      assert Atoi(text).None?;
    } else {
      var size: int := Value(digits);
      var value := if text[0] == '-' then -size else size;
      assert Atoi(text) == if -0x8000_0000_0000_0000 <= value < 0x8000_0000_0000_0000 then Some(value) else None;
    }
  }

  /** A number that is printed spells itself. */
  lemma PrintedIsSpelled(n: int)
    requires -0x8000_0000_0000_0000 <= n < 0x8000_0000_0000_0000
    ensures Spells(Integer(n), n)
  {
    hide Value, Decimal;
    var size: nat := if n < 0 then -n else n;
    DecimalIsNumeral(size);
    AllDigits(Decimal(size));
    if n < 0 {
      assert Integer(n)[1..] == Decimal(size);
    } else {
      assert Decimal(size)[0] in Decimal(size);
    }
  }

  lemma AllDigits(text: string)
    ensures (forall i | 0 <= i < |text| :: '0' <= text[i] <= '9') <==> forall c | c in text :: IsDigit(c)
  {
    assert forall i | 0 <= i < |text| :: text[i] in text;
  }

  lemma Signs(text: string)
    ensures text != "" ==> (text[0] in "+-" <==> text[0] == '+' || text[0] == '-')
  {
    assert "+-"[0] == '+' && "+-"[1] == '-';
  }
}
