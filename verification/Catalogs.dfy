/** The in-memory catalog: its three queries, and the cascade that feeds each one's ids to the next. */
module Catalogs {
  import opened Texts
  import opened Slugs

  datatype Configuration =
    Configuration(id: string, vehicleId: string, year: int, make: string, model: string, trim: string, region: string)

  datatype Entry = Entry(id: string, name: string)

  predicate EqualFold(a: string, b: string) {
    Lower(a) == Lower(b)
  }

  /** `catalogSelectorMatches` */
  predicate SelectorMatches(name: string, selector: string) {
    EqualFold(name, selector) || (Slug(selector) != "" && Slug(name) == Slug(selector))
  }

  /** `catalogMakeLabel`: four makes are spelled in their own way. */
  function MakeLabel(value: string): string {
    var text := TrimSpace(value);
    var key := Lower(Join(Fields(DashesToSpaces(text)), ' '));
    match key
    case "gmc" => "GMC"
    case "mercedes benz" => "Mercedes-Benz"
    case "nissan datsun" => "Nissan-Datsun"
    case "nissan diesel truck ud" => "Nissan Diesel Truck - UD"
    case _ => text
  }

  /** `catalogLabel` */
  function ModelLabel(value: string): string {
    Join(Fields(TrimSpace(value)), ' ')
  }

  /** `catalogPathValue`: what the HTTP layer makes of an id found in a path. */
  function PathValue(value: string): string {
    DashesToSpaces(TrimSpace(value))
  }

  lemma PathValueKeepsSlug(value: string)
    ensures Slug(PathValue(value)) == Slug(value)
  {
    DashesToSpacesKeepsWords(TrimSpace(value));
    TrimSpaceKeepsWords(value);
  }

  lemma ModelLabelKeepsSlug(value: string)
    ensures Slug(ModelLabel(value)) == Slug(value)
  {
    TrimSpaceKeepsWords(value);
    FieldsKeepWords(TrimSpace(value));
  }

  lemma LowerTwice(s: string)
    ensures Lower(Lower(s)) == Lower(s)
  {
  }

  /** The four special spellings have the words of their keys. */
  lemma SpecialSpellings()
    ensures Words("GMC") == Words("gmc") && Words("Mercedes-Benz") == Words("mercedes benz")
    ensures Words("Nissan-Datsun") == Words("nissan datsun")
    ensures Words("Nissan Diesel Truck - UD") == Words("nissan diesel truck ud")
  {
    hide Runs, Lower;
    SameWordsUpToDashes("GMC", "gmc");
    SameWordsUpToDashes("Mercedes-Benz", "mercedes benz");
    SameWordsUpToDashes("Nissan-Datsun", "nissan datsun");
    NissanDieselTruck();
  }

  lemma NissanDieselTruck()
    ensures Words("Nissan Diesel Truck - UD") == Words("nissan diesel truck ud")
  {
    hide Runs;
    var a, b := "nissan diesel truck", "ud";
    SpelledInLowerCase();
    RunsSplit(IsAlnum, a, ' ', "- " + b);
    RunsSplit(IsAlnum, a, ' ', b);
    RunsSplit(IsAlnum, "-", ' ', b);
    RunsSplit(IsAlnum, "", '-', "");
    RunsOfNothing();
    assert "" + ['-'] + "" == "-" && "-" + [' '] + b == "- " + b;
  }

  lemma SpelledInLowerCase()
    ensures Lower("Nissan Diesel Truck - UD") == "nissan diesel truck" + [' '] + ("- " + "ud")
    ensures Lower("nissan diesel truck ud") == "nissan diesel truck" + [' '] + "ud"
  {
  }

  lemma SameWordsUpToDashes(a: string, b: string)
    requires |a| == |b| && forall i | 0 <= i < |a| ::
      LowerChar(a[i]) == LowerChar(b[i]) || (a[i] in "- " && b[i] in "- ")
    ensures Words(a) == Words(b)
  {
    hide Runs;
    RunsIgnoreTheRest(IsAlnum, Lower(a), Lower(b));
  }

  lemma MakeLabelKeepsSlug(value: string)
    ensures Slug(MakeLabel(value)) == Slug(value)
  {
    hide Runs, Join, Lower;
    var text := TrimSpace(value);
    TrimSpaceKeepsWords(value);
    var joined := Join(Fields(DashesToSpaces(text)), ' ');
    FieldsKeepWords(DashesToSpaces(text));
    DashesToSpacesKeepsWords(text);
    LowerTwice(joined);
    assert Words(Lower(joined)) == Words(joined) == Words(text);
    SpecialSpellings();
  }

  /** A nonempty id selects exactly the names that have it as their slug, spelled with dashes or with spaces. */
  lemma IdSelectsItsSlug(name: string, text: string)
    ensures Slug(text) != "" ==> (SelectorMatches(name, Slug(text)) <==> Slug(name) == Slug(text))
    ensures Slug(text) != "" ==> (SelectorMatches(name, PathValue(Slug(text))) <==> Slug(name) == Slug(text))
    ensures Slug(text) == "" ==> (SelectorMatches(name, Slug(text)) <==> name == "")
    ensures Slug(text) == "" ==> (SelectorMatches(name, PathValue(Slug(text))) <==> name == "")
  {
    hide Runs, Join;
    var id := Slug(text);
    SlugKeepsWords(text);
    PathValueKeepsSlug(id);
    assert Lower("") == "" && PathValue("") == "";
    RunsOfNothing();
    assert Lower(name) == "" <==> name == "";
  }

  lemma RunsOfNothing()
    ensures Runs(IsAlnum, "") == [] && Words("") == [] && Slug("") == ""
  {
  }

  /** `catalogConfigurationID` */
  function ConfigurationId(record: Configuration): (id: string) {
    Join([Slug(record.make), Slug(record.model), Integer(record.year), Slug(record.trim)], '-')
  }

  /** A record with the ids it gets when it has none of its own. */
  function Completed(record: Configuration): (kept: Configuration) {
    var id := if record.id == "" then ConfigurationId(record) else record.id;
    record.(id := id, vehicleId := if record.vehicleId == "" then id else record.vehicleId)
  }

  // ---------------------------------------------------------------- what the queries promise

  predicate InRegion(record: Configuration, region: string) {
    region == "" || EqualFold(record.region, region)
  }

  predicate MakeMatches(record: Configuration, year: int, make: string, region: string) {
    record.year == year && SelectorMatches(record.make, make) && InRegion(record, region)
  }

  predicate Matches(record: Configuration, year: int, make: string, model: string, region: string) {
    record.year == year && SelectorMatches(record.make, make) && SelectorMatches(record.model, model)
    && InRegion(record, region)
  }

  function Names(entries: seq<Entry>): (names: seq<string>)
    ensures |names| == |entries|
  {
    seq(|entries|, i requires 0 <= i < |entries| => entries[i].name)
  }

  function Ids(records: seq<Configuration>): (ids: seq<string>)
    ensures |ids| == |records|
  {
    seq(|records|, i requires 0 <= i < |records| => records[i].id)
  }

  /** In ascending order of name, and every id is the slug of its name. */
  ghost predicate IsListing(entries: seq<Entry>) {
    StrictlySorted(Names(entries)) && forall e | e in entries :: e.id == Slug(e.name)
  }

  ghost predicate IsMakes(store: map<string, Configuration>, year: int, region: string, entries: seq<Entry>) {
    && IsListing(entries)
    && (forall k | k in store && store[k].year == year && InRegion(store[k], region) ::
         exists e | e in entries :: e.id == Slug(store[k].make))
    && (forall e | e in entries ::
         exists k | k in store ::
           store[k].year == year && InRegion(store[k], region) && e.name == MakeLabel(store[k].make))
  }

  ghost predicate IsModels(store: map<string, Configuration>, year: int, make: string, region: string,
                           entries: seq<Entry>) {
    && IsListing(entries)
    && (forall k | k in store && MakeMatches(store[k], year, make, region) ::
         exists e | e in entries :: e.id == Slug(store[k].model))
    && (forall e | e in entries ::
         exists k | k in store :: MakeMatches(store[k], year, make, region) && e.name == ModelLabel(store[k].model))
  }

  ghost predicate IsConfigurations(store: map<string, Configuration>, year: int, make: string, model: string,
                                   region: string, records: seq<Configuration>) {
    && StrictlySorted(Ids(records))
    && forall c :: c in records <==> c.id in store && store[c.id] == c && Matches(c, year, make, model, region)
  }

  // ---------------------------------------------------------------- the store

  class Store {
    var configurations: map<string, Configuration>

    /** Every record is kept under its own id. */
    ghost predicate Valid()
      reads this
    {
      forall k | k in configurations :: configurations[k].id == k
    }

    constructor ()
      ensures Valid() && configurations == map[]
    {
      configurations := map[];
    }

    method PutConfiguration(record: Configuration)
      requires Valid()
      modifies this
      ensures Valid() && configurations == old(configurations)[Completed(record).id := Completed(record)]
    {
      var kept := record;
      if kept.id == "" {
        kept := kept.(id := ConfigurationId(kept));
      }
      if kept.vehicleId == "" {
        kept := kept.(vehicleId := kept.id);
      }
      configurations := configurations[kept.id := kept];
    }

    method Makes(year: int, region: string) returns (result: seq<Entry>)
      requires Valid()
      ensures IsMakes(configurations, year, region, result)
    {
      hide Slug, MakeLabel, EqualFold;
      var seen: map<string, Entry>, rest := map[], configurations.Keys;
      while rest != {}
        invariant rest <= configurations.Keys && IsTable(seen)
        invariant forall k | k in configurations && k !in rest ::
          configurations[k].year == year && InRegion(configurations[k], region) ==> Slug(configurations[k].make) in seen
        invariant forall id | id in seen :: exists k | k in configurations ::
          configurations[k].year == year && InRegion(configurations[k], region)
          && seen[id].name == MakeLabel(configurations[k].make)
        decreases rest
      {
        var k :| k in rest;
        var record := configurations[k];
        if record.year == year && (region == "" || EqualFold(record.region, region)) {
          var name := MakeLabel(record.make);
          MakeLabelKeepsSlug(record.make);
          seen := seen[Slug(name) := Entry(Slug(name), name)];
        }
        rest := rest - {k};
      }
      result := Listing(seen);
    }

    method Models(year: int, make: string, region: string) returns (result: seq<Entry>)
      requires Valid()
      ensures IsModels(configurations, year, make, region, result)
    {
      hide Slug, ModelLabel, EqualFold, SelectorMatches;
      var seen: map<string, Entry>, rest := map[], configurations.Keys;
      while rest != {}
        invariant rest <= configurations.Keys && IsTable(seen)
        invariant forall k | k in configurations && k !in rest && MakeMatches(configurations[k], year, make, region) ::
          Slug(configurations[k].model) in seen
        invariant forall id | id in seen :: exists k | k in configurations ::
          MakeMatches(configurations[k], year, make, region) && seen[id].name == ModelLabel(configurations[k].model)
        decreases rest
      {
        var k :| k in rest;
        var record := configurations[k];
        if record.year == year && SelectorMatches(record.make, make)
           && (region == "" || EqualFold(record.region, region)) {
          var name := ModelLabel(record.model);
          ModelLabelKeepsSlug(record.model);
          seen := seen[Slug(name) := Entry(Slug(name), name)];
        }
        rest := rest - {k};
      }
      result := Listing(seen);
    }

    method Configurations(year: int, make: string, model: string, region: string) returns (result: seq<Configuration>)
      requires Valid()
      ensures IsConfigurations(configurations, year, make, model, region, result)
    {
      hide Slug, EqualFold, SelectorMatches;
      var ids: seq<string>, rest := [], configurations.Keys;
      while rest != {}
        invariant rest <= configurations.Keys && Distinct(ids)
        invariant forall k :: k in ids <==>
          k in configurations && k !in rest && Matches(configurations[k], year, make, model, region)
        decreases rest
      {
        var k :| k in rest;
        var record := configurations[k];
        if record.year == year && SelectorMatches(record.make, make) && SelectorMatches(record.model, model)
           && (region == "" || EqualFold(record.region, region)) {
          AppendDistinct(ids, k);
          ids := ids + [k];
        }
        rest := rest - {k};
      }
      SortMembers(ids);
      var store := configurations;
      var sorted := Sort(ids);
      assert forall i | 0 <= i < |sorted| :: sorted[i] in sorted && sorted[i] in ids;
      result := seq(|sorted|, i requires 0 <= i < |sorted| && sorted[i] in store => store[sorted[i]]);
      assert Ids(result) == sorted;
      forall c: Configuration
        ensures c in result <==> c.id in store && store[c.id] == c && Matches(c, year, make, model, region)
      {
        if c.id in sorted {
          var i :| 0 <= i < |sorted| && sorted[i] == c.id;
          assert result[i] == store[c.id];
        }
      }
    }
  }

  /** What the loops build: one entry under each slug. */
  ghost predicate IsTable(seen: map<string, Entry>) {
    forall id | id in seen :: seen[id].id == id == Slug(seen[id].name)
  }

  /** The entries of a table, by name. */
  method Listing(seen: map<string, Entry>) returns (result: seq<Entry>)
    requires IsTable(seen)
    ensures IsListing(result)
    ensures forall e :: e in result <==> e.id in seen && seen[e.id] == e
  {
    var names: seq<string>, rest := [], seen.Keys;
    while rest != {}
      invariant rest <= seen.Keys && Distinct(names)
      invariant forall name :: name in names <==>
        Slug(name) in seen && Slug(name) !in rest && seen[Slug(name)].name == name
      decreases rest
    {
      var id :| id in rest;
      AppendDistinct(names, seen[id].name);
      names := names + [seen[id].name];
      rest := rest - {id};
    }
    SortMembers(names);
    var sorted := Sort(names);
    result := seq(|sorted|, i requires 0 <= i < |sorted| => Entry(Slug(sorted[i]), sorted[i]));
    assert Names(result) == sorted;
    forall e: Entry
      ensures e in result <==> e.id in seen && seen[e.id] == e
    {
      if e.name in sorted {
        var i :| 0 <= i < |sorted| && sorted[i] == e.name;
        assert result[i] == Entry(Slug(e.name), e.name);
      }
    }
  }

  // ---------------------------------------------------------------- the cascade

  function AsSent(id: string, byPath: bool): string {
    if byPath then PathValue(id) else id
  }

  /** A name can be found again by the id made from it. */
  predicate HasId(name: string) {
    Slug(name) != "" || name == ""
  }

  /**
   The cascade: the id of a record's make is among the makes; sent back, as it is or through a path, it lists the
   id of the record's model; and both sent back return the record, exactly when both names can be found again.
   */
  lemma CascadeReturnsTheRecord(store: map<string, Configuration>, k: string, region: string, byPath: bool,
                                makes: seq<Entry>, models: seq<Entry>, records: seq<Configuration>)
    requires k in store && store[k].id == k && InRegion(store[k], region)
    requires IsMakes(store, store[k].year, region, makes)
    requires IsModels(store, store[k].year, AsSent(Slug(store[k].make), byPath), region, models)
    requires IsConfigurations(store, store[k].year, AsSent(Slug(store[k].make), byPath),
                              AsSent(Slug(store[k].model), byPath), region, records)
    ensures exists e | e in makes :: e.id == Slug(store[k].make)
    ensures HasId(store[k].make) ==> exists e | e in models :: e.id == Slug(store[k].model)
    ensures store[k] in records <==> HasId(store[k].make) && HasId(store[k].model)
  {
    hide *;
    NameIsFoundAgain(store[k].make, byPath);
    NameIsFoundAgain(store[k].model, byPath);
    MakeIsListed(store, k, region, makes);
    if HasId(store[k].make) {
      ModelIsListed(store, k, AsSent(Slug(store[k].make), byPath), region, models);
    }
    var make, model := AsSent(Slug(store[k].make), byPath), AsSent(Slug(store[k].model), byPath);
    RecordIsReturned(store, k, make, model, region, records);
  }

  const DASH := Configuration("d", "d", 2020, "-", "Focus", "", "US")

  /** One record the cascade does not return: its make is a dash, which has no slug. */
  lemma DashIsNotReturned(byPath: bool, records: seq<Configuration>)
    requires IsConfigurations(map["d" := DASH], 2020, AsSent(Slug("-"), byPath), AsSent(Slug("Focus"), byPath), "",
                              records)
    ensures Slug("-") == "" && DASH !in records
  {
    hide Runs, SelectorMatches, PathValue, StrictlySorted;
    RunsSplit(IsAlnum, "", '-', "");
    RunsOfNothing();
    assert "" + ['-'] + "" == "-" == Lower("-");
    NameIsFoundAgain("-", byPath);
  }

  lemma MakeIsListed(store: map<string, Configuration>, k: string, region: string, makes: seq<Entry>)
    requires k in store && InRegion(store[k], region) && IsMakes(store, store[k].year, region, makes)
    ensures exists e | e in makes :: e.id == Slug(store[k].make)
  {
    hide Slug, EqualFold, IsListing;
  }

  lemma ModelIsListed(store: map<string, Configuration>, k: string, make: string, region: string, models: seq<Entry>)
    requires k in store && InRegion(store[k], region) && SelectorMatches(store[k].make, make)
    requires IsModels(store, store[k].year, make, region, models)
    ensures exists e | e in models :: e.id == Slug(store[k].model)
  {
    hide Slug, EqualFold, SelectorMatches, IsListing;
    assert MakeMatches(store[k], store[k].year, make, region);
  }

  lemma RecordIsReturned(store: map<string, Configuration>, k: string, make: string, model: string, region: string,
                         records: seq<Configuration>)
    requires k in store && store[k].id == k && InRegion(store[k], region)
    requires IsConfigurations(store, store[k].year, make, model, region, records)
    ensures store[k] in records <==> SelectorMatches(store[k].make, make) && SelectorMatches(store[k].model, model)
  {
    hide Slug, EqualFold, SelectorMatches, StrictlySorted;
  }

  lemma NameIsFoundAgain(name: string, byPath: bool)
    ensures SelectorMatches(name, AsSent(Slug(name), byPath)) <==> HasId(name)
  {
    hide Slug, EqualFold, SelectorMatches, PathValue;
    IdSelectsItsSlug(name, name);
  }

  /** And nothing else comes back: only records of that year and region whose make and model have those ids. */
  lemma CascadeReturnsOnlyItsIds(store: map<string, Configuration>, year: int, region: string, byPath: bool,
                                 make: string, model: string, records: seq<Configuration>, c: Configuration)
    requires Slug(make) != "" && Slug(model) != ""
    requires IsConfigurations(store, year, AsSent(Slug(make), byPath), AsSent(Slug(model), byPath), region, records)
    ensures c in records <==>
      && c.id in store && store[c.id] == c && c.year == year && InRegion(c, region)
      && Slug(c.make) == Slug(make) && Slug(c.model) == Slug(model)
  {
    hide Slug, EqualFold, SelectorMatches, PathValue;
    IdSelectsItsSlug(c.make, make);
    IdSelectsItsSlug(c.model, model);
  }
}
