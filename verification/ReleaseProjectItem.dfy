/**
 `_project_item`: the tracked item is looked up by reading every page of the project's items. The walk succeeds
 only when it can prove that it was complete.
 */
module ReleaseProjectItem {
  import opened Wrappers
  import opened Texts
  import opened Release

  const MAX_PAGES := 100

  /** A value that may be `True`, `False` or anything else. */
  datatype Flagged = Yes | No | Unknown

  datatype FieldValue = FieldValue(kind: string, fieldId: Option<string>, value: string)

  datatype Item = Item(id: string, kind: string, number: int, url: string, repository: string,
                       moreValues: Flagged, valueCount: Option<int>, values: seq<FieldValue>)

  datatype ItemPage = ItemPage(projectId: string, moreFields: Flagged, fieldCount: Option<int>,
                               fields: seq<(string, string)>, items: seq<Item>, more: Flagged,
                               endCursor: Option<string>)

  /** What the n-th query answers, for the cursor it asks with; nothing when the command fails. */
  type Remote = (nat, Option<string>) -> Option<ItemPage>

  // ---------------------------------------------------------------- a complete walk

  function FieldIds(fields: seq<(string, string)>): (ids: seq<string>)
    ensures |ids| == |fields|
  {
    seq(|fields|, i requires 0 <= i < |fields| => fields[i].0)
  }

  ghost predicate SoundPage(c: Context, p: ItemPage) {
    && p.projectId == c.projectId
    && p.moreFields == No && p.fieldCount == Some(|p.fields|) && |p.fields| <= 100
    && Distinct(FieldIds(p.fields))
    && (c.statusFieldId, "SINGLE_SELECT") in p.fields && (c.dependencyFieldId, "TEXT") in p.fields
    && |p.items| <= 100
  }

  /** The cursor to ask with after these pages. */
  function Next(pages: seq<ItemPage>): Option<string> {
    if pages == [] then None else pages[|pages| - 1].endCursor
  }

  function Items(pages: seq<ItemPage>): seq<Item> {
    if pages == [] then [] else Items(pages[..|pages| - 1]) + pages[|pages| - 1].items
  }

  function ItemIds(items: seq<Item>): (ids: seq<string>)
    ensures |ids| == |items|
  {
    seq(|items|, i requires 0 <= i < |items| => items[i].id)
  }

  /** Each page answers the query with the cursor of the page before. */
  ghost predicate Answers(remote: Remote, pages: seq<ItemPage>) {
    pages != [] ==>
      var front, last := pages[..|pages| - 1], pages[|pages| - 1];
      Answers(remote, front) && remote(|front|, Next(front)) == Some(last)
  }

  /** The page announces another one, under a cursor that none of the pages before it has. */
  ghost predicate LeadsOn(front: seq<ItemPage>, page: ItemPage) {
    && page.more == Yes && page.endCursor.Some? && page.endCursor.value != ""
    && forall p | p in front :: p.endCursor != page.endCursor
  }

  /** Every one of the pages leads on. */
  ghost predicate Leads(pages: seq<ItemPage>) {
    pages != [] ==> Leads(pages[..|pages| - 1]) && LeadsOn(pages[..|pages| - 1], pages[|pages| - 1])
  }

  ghost predicate Going(c: Context, remote: Remote, pages: seq<ItemPage>) {
    && Answers(remote, pages) && Leads(pages) && (forall p | p in pages :: SoundPage(c, p))
    && Distinct(ItemIds(Items(pages)))
  }

  /** At most 100 sound pages, the last one saying that it is the last, and no item twice. */
  ghost predicate CompleteWalk(c: Context, remote: Remote, pages: seq<ItemPage>) {
    && 1 <= |pages| <= MAX_PAGES
    && Answers(remote, pages) && Leads(pages[..|pages| - 1]) && pages[|pages| - 1].more == No
    && (forall p | p in pages :: SoundPage(c, p))
    && Distinct(ItemIds(Items(pages)))
  }

  // ---------------------------------------------------------------- the item and its two fields

  predicate IsTheIssue(c: Context, item: Item) {
    && item.kind == "Issue" && item.number == c.issueNumber && item.repository == c.repository
    && item.url == "https://github.com/" + c.repository + "/issues/" + Integer(c.issueNumber)
    && item.moreValues == No && item.valueCount == Some(|item.values|)
  }

  function RequiredKind(c: Context, fieldId: string): Option<string> {
    if fieldId == c.dependencyFieldId then Some("ProjectV2ItemFieldTextValue")
    else if fieldId == c.statusFieldId then Some("ProjectV2ItemFieldSingleSelectValue")
    else None
  }

  predicate IsRequired(c: Context, v: FieldValue) {
    v.fieldId.Some? && RequiredKind(c, v.fieldId.value).Some?
  }

  /** The required values carry the right types and no field has two of them. */
  ghost predicate ValuesAreClear(c: Context, values: seq<FieldValue>) {
    && (forall v | v in values && IsRequired(c, v) :: RequiredKind(c, v.fieldId.value) == Some(v.kind))
    && (forall i, j | 0 <= i < j < |values| && IsRequired(c, values[i]) :: values[i].fieldId != values[j].fieldId)
  }

  ghost predicate HoldsValues(c: Context, values: seq<FieldValue>, fields: map<string, FieldValue>) {
    forall id: string, v: FieldValue ::
      id in fields && fields[id] == v <==> v in values && IsRequired(c, v) && v.fieldId == Some(id)
  }

  method RequiredValues(c: Context, values: seq<FieldValue>) returns (fields: Option<map<string, FieldValue>>)
    ensures fields.Some? <==> ValuesAreClear(c, values)
    ensures fields.Some? ==> HoldsValues(c, values, fields.value)
  {
    hide RequiredKind;
    var result: map<string, FieldValue>, n := map[], 0;
    while n < |values|
      invariant n <= |values| && ValuesAreClear(c, values[..n]) && HoldsValues(c, values[..n], result)
    {
      var v := values[n];
      assert values[..n + 1] == values[..n] + [v];
      if IsRequired(c, v) {
        if RequiredKind(c, v.fieldId.value) != Some(v.kind) {
          assert v in values;
          return None;
        }
        if v.fieldId.value in result {
          var earlier := result[v.fieldId.value];
          assert earlier in values[..n] && earlier.fieldId == v.fieldId;
          ghost var i :| 0 <= i < n && values[..n][i] == earlier;
          assert values[i].fieldId == values[n].fieldId;
          return None;
        }
        result := result[v.fieldId.value := v];
      }
      n := n + 1;
    }
    assert values[..n] == values;
    fields := Some(result);
  }

  // ---------------------------------------------------------------- the walk is determined by the remote

  lemma {:induction false} Beginning(remote: Remote, pages: seq<ItemPage>, n: nat)
    requires n <= |pages|
    ensures Answers(remote, pages) ==> Answers(remote, pages[..n])
    ensures Leads(pages) ==> Leads(pages[..n])
    decreases |pages|
  {
    hide LeadsOn;
    if n < |pages| {
      Beginning(remote, pages[..|pages| - 1], n);
      assert pages[..|pages| - 1][..n] == pages[..n];
    } else {
      assert pages[..n] == pages;
    }
  }

  /** At each place of a complete walk: the answer to the cursor before it, and the last page or one that leads on. */
  lemma WalkAt(c: Context, remote: Remote, whole: seq<ItemPage>, n: nat)
    requires CompleteWalk(c, remote, whole) && n < |whole|
    ensures remote(n, Next(whole[..n])) == Some(whole[n]) && SoundPage(c, whole[n])
    ensures if n == |whole| - 1 then whole[n].more == No else LeadsOn(whole[..n], whole[n])
    ensures whole[..n + 1] == whole[..n] + [whole[n]] && Distinct(ItemIds(Items(whole[..n + 1])))
  {
    hide LeadsOn, SoundPage, Items, ItemIds, Distinct;
    Beginning(remote, whole, n + 1);
    assert whole[..n + 1][..n] == whole[..n];
    if n < |whole| - 1 {
      Beginning(remote, whole[..|whole| - 1], n + 1);
      assert whole[..|whole| - 1][..n + 1] == whole[..n + 1];
    }
    PrefixIsDistinct(whole, n + 1);
  }

  /** What leads on is a proper beginning of every complete walk. */
  lemma {:induction false} LeadsIntoAnyWalk(c: Context, remote: Remote, pages: seq<ItemPage>, whole: seq<ItemPage>)
    requires Answers(remote, pages) && Leads(pages) && CompleteWalk(c, remote, whole)
    ensures |pages| < |whole| && whole[..|pages|] == pages
    ensures remote(|pages|, Next(pages)) == Some(whole[|pages|])
  {
    hide SoundPage, Items, CompleteWalk;
    if pages == [] {
      assert 1 <= |whole| by {
        SomePage(c, remote, whole);
      }
      assert whole[..0] == [];
      WalkAt(c, remote, whole, 0);
    } else {
      var front, n := pages[..|pages| - 1], |pages| - 1;
      LeadsIntoAnyWalk(c, remote, front, whole);
      WalkAt(c, remote, whole, n);
      assert pages == front + [pages[n]] == whole[..n + 1];
      WalkAt(c, remote, whole, n + 1);
    }
  }

  lemma SomePage(c: Context, remote: Remote, whole: seq<ItemPage>)
    requires CompleteWalk(c, remote, whole)
    ensures 1 <= |whole| <= MAX_PAGES && Leads(whole[..|whole| - 1]) && Answers(remote, whole[..|whole| - 1])
  {
    hide SoundPage, Items;
  }

  /** A remote that answers the same way offers at most one complete walk. */
  lemma WalkIsUnique(c: Context, remote: Remote, a: seq<ItemPage>, b: seq<ItemPage>)
    requires CompleteWalk(c, remote, a) && CompleteWalk(c, remote, b)
    ensures a == b
  {
    hide SoundPage, Items, CompleteWalk;
    SomePage(c, remote, a);
    var front, n := a[..|a| - 1], |a| - 1;
    LeadsIntoAnyWalk(c, remote, front, b);
    WalkAt(c, remote, a, n);
    WalkAt(c, remote, b, n);
    assert a == front + [a[n]] && b[..n + 1] == front + [b[n]];
    assert b == b[..|b|];
  }

  /** A page that cannot be part of a complete walk after these ends every hope of one. */
  lemma NoWalkThrough(c: Context, remote: Remote, pages: seq<ItemPage>, page: ItemPage)
    requires Going(c, remote, pages) && remote(|pages|, Next(pages)) == Some(page)
    requires || !SoundPage(c, page) || !Distinct(ItemIds(Items(pages + [page])))
             || (page.more != No && !LeadsOn(pages, page))
    ensures forall whole :: !CompleteWalk(c, remote, whole)
  {
    hide SoundPage, Items, CompleteWalk, LeadsOn, Distinct;
    forall whole | CompleteWalk(c, remote, whole)
      ensures false
    {
      LeadsIntoAnyWalk(c, remote, pages, whole);
      WalkAt(c, remote, whole, |pages|);
    }
  }

  lemma {:induction false} PrefixIsDistinct(pages: seq<ItemPage>, n: nat)
    requires n <= |pages| && Distinct(ItemIds(Items(pages)))
    ensures Distinct(ItemIds(Items(pages[..n])))
    decreases |pages|
  {
    if n < |pages| {
      var front := pages[..|pages| - 1];
      assert forall i | 0 <= i < |Items(front)| :: ItemIds(Items(front))[i] == ItemIds(Items(pages))[i];
      PrefixIsDistinct(front, n);
      assert front[..n] == pages[..n];
    } else {
      assert pages[..n] == pages;
    }
  }

  lemma NoWalkWithout(c: Context, remote: Remote, pages: seq<ItemPage>)
    requires Going(c, remote, pages) && remote(|pages|, Next(pages)).None?
    ensures forall whole :: !CompleteWalk(c, remote, whole)
  {
    hide SoundPage, Items;
    forall whole | CompleteWalk(c, remote, whole)
      ensures false
    {
      LeadsIntoAnyWalk(c, remote, pages, whole);
    }
  }

  // ---------------------------------------------------------------- the loops

  method CheckPage(c: Context, p: ItemPage) returns (ok: bool)
    ensures ok <==> SoundPage(c, p)
  {
    if p.projectId != c.projectId || p.moreFields != No || p.fieldCount != Some(|p.fields|) || |p.fields| > 100 {
      return false;
    }
    var types: map<string, string>, n := map[], 0;
    while n < |p.fields|
      invariant n <= |p.fields| && types.Keys == Elements(FieldIds(p.fields)[..n]) && Distinct(FieldIds(p.fields)[..n])
      invariant forall id | id in types :: (id, types[id]) in p.fields[..n]
    {
      var ids := FieldIds(p.fields);
      assert ids[..n + 1] == ids[..n] + [ids[n]];
      AppendDistinct(ids[..n], ids[n]);
      if p.fields[n].0 in types {
        ghost var i :| 0 <= i < n && ids[..n][i] == ids[n];
        assert ids[i] == ids[n];
        return false;
      }
      types, n := types[p.fields[n].0 := p.fields[n].1], n + 1;
    }
    assert FieldIds(p.fields)[..n] == FieldIds(p.fields);
    TypeIsListed(p.fields, types, c.statusFieldId, "SINGLE_SELECT");
    TypeIsListed(p.fields, types, c.dependencyFieldId, "TEXT");
    ok := c.statusFieldId in types && types[c.statusFieldId] == "SINGLE_SELECT"
      && c.dependencyFieldId in types && types[c.dependencyFieldId] == "TEXT"
      && |p.items| <= 100;
  }

  lemma TypeIsListed(fields: seq<(string, string)>, types: map<string, string>, id: string, kind: string)
    requires types.Keys == Elements(FieldIds(fields)) && Distinct(FieldIds(fields))
    requires forall id | id in types :: (id, types[id]) in fields
    ensures (id, kind) in fields <==> id in types && types[id] == kind
  {
    if (id, kind) in fields {
      var i :| 0 <= i < |fields| && fields[i] == (id, kind);
      assert FieldIds(fields)[i] == id;
      var j :| 0 <= j < |fields| && fields[j] == (id, types[id]);
      assert FieldIds(fields)[j] == id;
    }
  }

  /** One page of items: no item that was seen before, and the sought one is kept. */
  method ReadItems(items: seq<Item>, ghost before: seq<Item>, seen: set<string>, sought: string, found: seq<Item>)
      returns (ok: bool, seen': set<string>, found': seq<Item>)
    requires seen == Elements(ItemIds(before)) && Distinct(ItemIds(before))
    requires forall item :: item in found <==> item in before && item.id == sought
    requires |found| <= 1
    ensures ok <==> Distinct(ItemIds(before + items))
    ensures ok ==> seen' == Elements(ItemIds(before + items)) && |found'| <= 1
    ensures ok ==> forall item :: item in found' <==> item in before + items && item.id == sought
  {
    seen', found', ok := seen, found, true;
    var n := 0;
    assert before + items[..0] == before;
    while n < |items|
      invariant n <= |items| && seen' == Elements(ItemIds(before + items[..n]))
      invariant Distinct(ItemIds(before + items[..n]))
      invariant ok && |found'| <= 1
      invariant forall item :: item in found' <==> item in before + items[..n] && item.id == sought
    {
      var item := items[n];
      ghost var read := before + items[..n];
      assert before + items[..n + 1] == read + [item];
      assert ItemIds(read + [item]) == ItemIds(read) + [item.id];
      AppendDistinct(ItemIds(read), item.id);
      if item.id in seen' {
        assert (before + items)[..|read|] == read;
        RepeatIsNotDistinct(before + items, |read|, item.id);
        return false, seen', found';
      }
      if item.id == sought {
        NothingFound(read, found', sought);
        found' := found' + [item];
      }
      seen', n := seen' + {item.id}, n + 1;
    }
    assert items[..n] == items;
  }

  lemma MembersAreSeen(items: seq<Item>)
    ensures forall item | item in items :: item.id in Elements(ItemIds(items))
  {
    forall item | item in items
      ensures item.id in Elements(ItemIds(items))
    {
      var i :| 0 <= i < |items| && items[i] == item;
      assert ItemIds(items)[i] == item.id;
    }
  }

  lemma NothingFound(items: seq<Item>, found: seq<Item>, sought: string)
    requires forall item | item in found :: item in items && item.id == sought
    requires sought !in Elements(ItemIds(items))
    ensures found == []
  {
    MembersAreSeen(items);
    NonemptyHasMember(found);
  }

  lemma NonemptyHasMember(items: seq<Item>)
    ensures items != [] ==> exists item :: item in items
  {
    assert items != [] ==> items[0] in items;
  }

  lemma RepeatIsNotDistinct(items: seq<Item>, n: nat, id: string)
    requires n < |items| && items[n].id == id && id in Elements(ItemIds(items[..n]))
    ensures !Distinct(ItemIds(items))
  {
    var i :| 0 <= i < n && ItemIds(items[..n])[i] == id;
    assert ItemIds(items)[i] == ItemIds(items)[n];
  }

  // ---------------------------------------------------------------- spelled out

  /** It is the issue of the context, by kind, number, repository and address, and it shows all of its values. */
  ghost predicate IsOurs(c: Context, item: Item) {
    && item.kind == "Issue" && item.number == c.issueNumber && item.repository == c.repository
    && item.url == "https://github.com/" + c.repository + "/issues/" + Integer(c.issueNumber)
    && item.moreValues == No && item.valueCount.Some? && item.valueCount.value == |item.values|
  }

  /** A value of one of the two fields that the release writes. */
  ghost predicate IsOfEither(c: Context, v: FieldValue) {
    v.fieldId == Some(c.statusFieldId) || v.fieldId == Some(c.dependencyFieldId)
  }

  /** The status is an option, the dependency a text, and neither has two values. */
  ghost predicate AreClear(c: Context, values: seq<FieldValue>) {
    && (forall v | v in values && v.fieldId == Some(c.dependencyFieldId) :: v.kind == "ProjectV2ItemFieldTextValue")
    && (forall v | v in values && v.fieldId == Some(c.statusFieldId) && c.statusFieldId != c.dependencyFieldId ::
          v.kind == "ProjectV2ItemFieldSingleSelectValue")
    && (forall i, j | 0 <= i < j < |values| && IsOfEither(c, values[i]) :: values[i].fieldId != values[j].fieldId)
  }

  /** The values of these two fields, each under the id of its field, and nothing else. */
  ghost predicate AreThose(c: Context, values: seq<FieldValue>, fields: map<string, FieldValue>) {
    && (forall v | v in values && IsOfEither(c, v) :: v.fieldId.value in fields && fields[v.fieldId.value] == v)
    && (forall id | id in fields :: IsOfEither(c, fields[id]) && fields[id].fieldId == Some(id) && fields[id] in values)
  }

  lemma ItemsAreExact(c: Context, item: Item)
    ensures IsTheIssue(c, item) <==> IsOurs(c, item)
    ensures ValuesAreClear(c, item.values) <==> AreClear(c, item.values)
    ensures forall fields | HoldsValues(c, item.values, fields) :: AreThose(c, item.values, fields)
  {
  }

  /**
   An item is returned exactly when the walk it belongs to is complete, shows the sought item (then once only) as
   the expected issue, and shows its required values clearly. When nothing is returned, either there is no
   complete walk at all, or the only one does not show such an item.
   */
  method ProjectItem(c: Context, remote: Remote)
      returns (fields: Option<map<string, FieldValue>>, ghost pages: seq<ItemPage>)
    ensures fields.Some? ==> CompleteWalk(c, remote, pages) && exists item | item in Items(pages) ::
      && item.id == c.projectItemId && IsOurs(c, item) && AreClear(c, item.values)
      && AreThose(c, item.values, fields.value)
    ensures fields.None? ==> forall whole | CompleteWalk(c, remote, whole) ::
      forall item | item in Items(whole) && item.id == c.projectItemId ::
        !(IsOurs(c, item) && AreClear(c, item.values))
  {
    hide SoundPage, IsTheIssue, ValuesAreClear, HoldsValues, IsOurs, AreClear, AreThose;
    var found: Option<Item>;
    found, pages := Walk(c, remote);
    if found.None? {
      return None, pages;
    }
    forall whole | CompleteWalk(c, remote, whole)
      ensures whole == pages
    {
      WalkIsUnique(c, remote, whole, pages);
    }
    ItemsAreExact(c, found.value);
    if !IsTheIssue(c, found.value) {
      return None, pages;
    }
    fields := RequiredValues(c, found.value.values);
  }

  /** The pages, up to the last one. */
  method Walk(c: Context, remote: Remote) returns (found: Option<Item>, ghost pages: seq<ItemPage>)
    ensures found.Some? ==> CompleteWalk(c, remote, pages)
    ensures found.Some? ==> found.value in Items(pages) && found.value.id == c.projectItemId
    ensures found.Some? ==> forall item | item in Items(pages) && item.id == c.projectItemId :: item == found.value
    ensures found.None? ==> forall whole | CompleteWalk(c, remote, whole) ::
      forall item | item in Items(whole) :: item.id != c.projectItemId
  {
    hide SoundPage, Answers, Leads;
    var cursor: Option<string>, seenCursors: set<string>, seenItems: set<string>, matches: seq<Item>, n :=
      None, {}, {}, [], 0;
    pages := [];
    NothingRead(c, remote);
    while n < MAX_PAGES
      invariant n <= MAX_PAGES && |pages| == n && Going(c, remote, pages) && cursor == Next(pages)
      invariant seenItems == Elements(ItemIds(Items(pages))) && |matches| <= 1
      invariant forall item :: item in matches <==> item in Items(pages) && item.id == c.projectItemId
      invariant forall text :: text in seenCursors <==> exists p | p in pages :: p.endCursor == Some(text)
    {
      var answer := remote(n, cursor);
      if answer.None? {
        NoWalkWithout(c, remote, pages);
        return None, pages;
      }
      var page := answer.value;
      var sound := CheckPage(c, page);
      assert (pages + [page])[..n] == pages;
      assert Items(pages + [page]) == Items(pages) + page.items;
      if !sound {
        NoWalkThrough(c, remote, pages, page);
        return None, pages;
      }
      var ok;
      ok, seenItems, matches := ReadItems(page.items, Items(pages), seenItems, c.projectItemId, matches);
      if !ok {
        NoWalkThrough(c, remote, pages, page);
        return None, pages;
      }
      if page.more == No {
        LastPage(c, remote, pages, page);
        pages := pages + [page];
        forall whole | CompleteWalk(c, remote, whole)
          ensures whole == pages
        {
          WalkIsUnique(c, remote, whole, pages);
        }
        found := if |matches| == 1 then Some(matches[0]) else None;
        assert matches != [] ==> |matches| == 1;
        assert forall item :: item in matches <==> |matches| == 1 && item == matches[0];
        return;
      }
      cursor := page.endCursor;
      if page.more != Yes || cursor.None? || cursor.value == "" || cursor.value in seenCursors {
        NoWalkThrough(c, remote, pages, page);
        return None, pages;
      }
      OneMorePage(c, remote, pages, page);
      seenCursors := seenCursors + {cursor.value};
      pages, n := pages + [page], n + 1;
    }
    TooManyPages(c, remote, pages);
    found := None;
  }

  lemma NothingRead(c: Context, remote: Remote)
    ensures Going(c, remote, []) && Elements(ItemIds(Items([]))) == {}
  {
  }

  lemma TooManyPages(c: Context, remote: Remote, pages: seq<ItemPage>)
    requires Going(c, remote, pages) && |pages| >= MAX_PAGES
    ensures forall whole :: !CompleteWalk(c, remote, whole)
  {
    hide SoundPage, Items;
    forall whole | CompleteWalk(c, remote, whole)
      ensures false
    {
      LeadsIntoAnyWalk(c, remote, pages, whole);
    }
  }

  lemma OneMoreAnswer(remote: Remote, pages: seq<ItemPage>, page: ItemPage)
    requires Answers(remote, pages) && remote(|pages|, Next(pages)) == Some(page)
    ensures Answers(remote, pages + [page])
  {
    hide Next;
    assert (pages + [page])[..|pages|] == pages;
  }

  lemma LastPage(c: Context, remote: Remote, pages: seq<ItemPage>, page: ItemPage)
    requires |pages| < MAX_PAGES && Going(c, remote, pages) && remote(|pages|, Next(pages)) == Some(page)
    requires page.more == No && SoundPage(c, page) && Distinct(ItemIds(Items(pages + [page])))
    ensures CompleteWalk(c, remote, pages + [page])
  {
    hide SoundPage, Items, Distinct, LeadsOn, Leads, ItemIds, Answers, Next;
    assert (pages + [page])[..|pages|] == pages;
    OneMoreAnswer(remote, pages, page);
  }

  lemma OneMorePage(c: Context, remote: Remote, pages: seq<ItemPage>, page: ItemPage)
    requires Going(c, remote, pages) && remote(|pages|, Next(pages)) == Some(page)
    requires SoundPage(c, page) && Distinct(ItemIds(Items(pages + [page]))) && LeadsOn(pages, page)
    ensures Going(c, remote, pages + [page])
  {
    hide SoundPage, Items, Distinct, LeadsOn;
    assert (pages + [page])[..|pages|] == pages;
  }
}
