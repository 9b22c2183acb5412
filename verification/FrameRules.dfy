/**
 What a frame has to say to be taken, spelled out on its fields, in both directions: each response, each
 notification, and what it takes to finish. Nothing here names the checks of the session.
 */
module FrameRules {
  import opened Wrappers
  import opened JsonValues
  import opened Protocol
  import opened Texts

  // ---------------------------------------------------------------- reading fields

  ghost predicate Has(j: Json, key: string) {
    j.Obj? && key in j.fields
  }

  ghost function At(j: Json, key: string): Json
    requires Has(j, key)
  {
    j.fields[key]
  }

  ghost predicate Says(j: Json, key: string, text: string) {
    Has(j, key) && At(j, key) == Str(text)
  }

  ghost predicate SaysText(j: Json, key: string) {
    Has(j, key) && At(j, key).Str?
  }

  ghost predicate Names(j: Json, key: string) {
    SaysText(j, key) && At(j, key).s != ""
  }

  // ---------------------------------------------------------------- equality of parsed values

  /** Booleans and integers counted as numbers. */
  ghost function Counted(j: Json): Json
    decreases j
  {
    match j
    case Bool(b) => Float(if b then 1.0 else 0.0)
    case Int(n) => Float(n as real)
    case Arr(items) => Arr(seq(|items|, i requires 0 <= i < |items| => Counted(items[i])))
    case Obj(fields) => Obj(map k | k in fields :: Counted(fields[k]))
    case _ => j
  }

  /** Two values are equal exactly when they are the same once booleans and integers are counted as numbers. */
  lemma {:induction false} EqualityIsExact(x: Json, y: Json)
    ensures PyEq(x, y) <==> Counted(x) == Counted(y)
    decreases x
  {
    match (x, y)
    case (Arr(a), Arr(b)) =>
      forall i | 0 <= i < |a| && i < |b|
        ensures PyEq(a[i], b[i]) <==> Counted(x).items[i] == Counted(y).items[i]
      {
        EqualityIsExact(a[i], b[i]);
      }
      assert |a| == |b| && PyEq(x, y) ==> Counted(x).items == Counted(y).items;
    case (Obj(a), Obj(b)) =>
      forall k | k in a && k in b
        ensures PyEq(a[k], b[k]) <==> Counted(x).fields[k] == Counted(y).fields[k]
      {
        EqualityIsExact(a[k], b[k]);
      }
      assert Counted(x).fields.Keys == a.Keys && Counted(y).fields.Keys == b.Keys;
      assert PyEq(x, y) ==> Counted(x).fields == Counted(y).fields;
    case (_, _) =>
  }

  // ---------------------------------------------------------------- the four responses

  ghost predicate GreetingOk(e: Expected, result: Json) {
    && Names(result, "userAgent") && Names(result, "codexHome") && Names(result, "platformFamily")
    && Names(result, "platformOs") && Says(result, "codexHome", e.codexHome)
  }

  lemma GreetingIsExact(e: Expected, s: State, result: Json)
    ensures InitializeResult(e, s, result)
         == if !GreetingOk(e, result) then None
            else Some(s.(initializeComplete := true, ready := s.ready + [Initialized]))
  {
    var identity := {"userAgent", "codexHome", "platformFamily", "platformOs"};
    assert "userAgent" in identity && "codexHome" in identity && "platformFamily" in identity;
    assert "platformOs" in identity;
  }

  ghost predicate ModelsOk(models: seq<Json>) {
    && |models| <= 1600
    && (forall i | 0 <= i < |models| :: Names(models[i], "id"))
    && (forall i, j | 0 <= i < j < |models| && Has(models[i], "id") && Has(models[j], "id") ::
          At(models[i], "id") != At(models[j], "id"))
  }

  ghost predicate Lists(m: Json, list: string, key: string, value: string) {
    && Has(m, list) && At(m, list).Arr?
    && exists i | 0 <= i < |At(m, list).items| :: Says(At(m, list).items[i], key, value)
  }

  /** Model i is the only one of this name. */
  ghost predicate IsTheOnly(models: seq<Json>, name: string, i: nat) {
    i < |models| && forall j | 0 <= j < |models| :: Says(models[j], "model", name) <==> j == i
  }

  ghost predicate IsTheProfile(models: seq<Json>, i: nat) {
    && IsTheOnly(models, "gpt-6.1-sol", i)
    && Lists(models[i], "supportedReasoningEfforts", "reasoningEffort", "medium")
    && Lists(models[i], "serviceTiers", "id", "priority")
  }

  ghost predicate HasTheProfile(models: seq<Json>) {
    exists i: nat :: IsTheProfile(models, i)
  }

  lemma {:induction false} NoneIsNamed(models: seq<Json>, name: string)
    ensures ModelsNamed(models, name) == [] <==> forall j | 0 <= j < |models| :: !Says(models[j], "model", name)
  {
    if models != [] {
      NoneIsNamed(models[..|models| - 1], name);
    }
  }

  lemma {:induction false} OneIsNamed(models: seq<Json>, name: string, i: nat)
    requires IsTheOnly(models, name, i)
    ensures ModelsNamed(models, name) == [models[i]]
  {
    var front := models[..|models| - 1];
    assert forall j | 0 <= j < |front| :: models[j] == front[j];
    if i < |front| {
      assert !Says(models[|front|], "model", name);
      OneIsNamed(front, name, i);
    } else {
      NoneIsNamed(front, name);
    }
  }

  lemma {:induction false} TheNamedOne(models: seq<Json>, name: string) returns (i: nat)
    requires |ModelsNamed(models, name)| == 1
    ensures IsTheOnly(models, name, i) && ModelsNamed(models, name)[0] == models[i]
  {
    var front, last := models[..|models| - 1], models[|models| - 1];
    if Says(last, "model", name) {
      NoneIsNamed(front, name);
      i := |front|;
      assert forall j | 0 <= j < |front| :: models[j] == front[j];
    } else {
      i := TheNamedOne(front, name);
      assert forall j | 0 <= j < |front| :: models[j] == front[j];
    }
  }

  lemma ProfileIsExact(models: seq<Json>)
    ensures OffersProfile(models) <==> HasTheProfile(models)
  {
    hide ModelsNamed, Offers, Lists, IsTheOnly;
    if OffersProfile(models) {
      var i := TheNamedOne(models, "gpt-6.1-sol");
      ListsIsOffers(models[i], "supportedReasoningEfforts", "reasoningEffort", "medium");
      ListsIsOffers(models[i], "serviceTiers", "id", "priority");
      assert IsTheProfile(models, i) by { ItIsInside(models, "gpt-6.1-sol", i); }
    }
    forall i: nat | IsTheProfile(models, i)
      ensures OffersProfile(models)
    {
      ItIsInside(models, "gpt-6.1-sol", i);
      OneIsNamed(models, "gpt-6.1-sol", i);
      ListsIsOffers(models[i], "supportedReasoningEfforts", "reasoningEffort", "medium");
      ListsIsOffers(models[i], "serviceTiers", "id", "priority");
    }
  }

  lemma ItIsInside(models: seq<Json>, name: string, i: nat)
    requires IsTheOnly(models, name, i)
    ensures i < |models|
  {
  }

  lemma ListsIsOffers(m: Json, list: string, key: string, value: string)
    ensures Offers(m, list, key, value) <==> Lists(m, list, key, value)
  {
    if Has(m, list) && At(m, list).Arr? {
      var items := At(m, list).items;
      assert forall i | 0 <= i < |items| :: items[i] in items;
    }
  }

  lemma ModelsAreExact(models: seq<Json>)
    ensures ValidCatalog(models) <==> ModelsOk(models)
  {
    assert forall i | 0 <= i < |models| :: models[i] in models;
  }

  /** A page within bounds: a list of at most 100 models, none named before, and a new cursor or the profile. */
  ghost predicate PageOk(s: State, result: Json) {
    && Has(result, "data") && At(result, "data").Arr? && |At(result, "data").items| <= 100 && s.pages < 16
    && Has(result, "nextCursor")
    && ModelsOk(s.models + At(result, "data").items)
    && if At(result, "nextCursor").Null? then HasTheProfile(s.models + At(result, "data").items)
       else Names(result, "nextCursor") && At(result, "nextCursor").s !in s.cursors && s.pages < 15
  }

  ghost function Queued(s: State, call: Call): State {
    s.(ready := s.ready + [Request(s.nextId, call)], nextId := s.nextId + 1)
  }

  /** It is counted, its models are added, and the next page or the thread is asked for. */
  ghost function PageTaken(s: State, result: Json): State
    requires PageOk(s, result)
  {
    var next, s' := At(result, "nextCursor"),
      s.(pages := s.pages + 1, models := s.models + At(result, "data").items);
    if next.Null? then Queued(s', CallThreadStart)
    else Queued(s'.(cursors := s.cursors + {next.s}), CallModelList(Some(next.s)))
  }

  lemma PageIsExact(s: State, result: Json)
    ensures PageResult(s, result) == if PageOk(s, result) then Some(PageTaken(s, result)) else None
  {
    hide ModelsOk, ValidCatalog, OffersProfile, HasTheProfile;
    if Has(result, "data") && At(result, "data").Arr? {
      ModelsAreExact(s.models + At(result, "data").items);
      ProfileIsExact(s.models + At(result, "data").items);
    }
  }

  /** Every identity that was reported is that of the thread and of the turn, as far as these are known. */
  ghost predicate Agree(thread: Option<string>, turn: Option<string>, events: seq<Json>, scopes: seq<Scope>) {
    && (thread.Some? ==> forall i | 0 <= i < |events| :: events[i] == Str(thread.value))
    && (forall i | 0 <= i < |scopes| ::
          && (thread.Some? && scopes[i].threadId.Some? ==> scopes[i].threadId.value == thread.value)
          && (turn.Some? && scopes[i].turnId.Some? ==> scopes[i].turnId.value == turn.value))
  }

  lemma AgreementIsExact(s: State)
    ensures CheckScope(s) <==> Agree(s.thread, s.turn, s.threadEvents, s.scopes)
  {
    assert forall i | 0 <= i < |s.threadEvents| :: s.threadEvents[i] in s.threadEvents;
    assert forall i | 0 <= i < |s.scopes| :: s.scopes[i] in s.scopes;
  }

  ghost predicate ThreadOk(e: Expected, result: Json) {
    && Says(result, "model", "gpt-6.1-sol") && Says(result, "modelProvider", "openai")
    && Says(result, "reasoningEffort", "medium") && Says(result, "serviceTier", "priority")
    && Says(result, "cwd", e.cwd) && Says(result, "approvalPolicy", "never")
    && Has(result, "sandbox") && At(result, "sandbox") == Obj(map["type" := Str("dangerFullAccess")])
    && Has(result, "thread") && Names(At(result, "thread"), "id")
  }

  lemma ThreadIsExact(e: Expected, s: State, result: Json)
    ensures ThreadResult(e, s, result)
         == if ThreadOk(e, result)
               && Agree(Some(At(At(result, "thread"), "id").s), s.turn, s.threadEvents, s.scopes)
            then Some(Queued(s.(thread := Some(At(At(result, "thread"), "id").s)),
                             CallTurnStart(At(At(result, "thread"), "id").s)))
            else None
  {
    hide CheckScope, Agree;
    if Has(result, "thread") && Names(At(result, "thread"), "id") {
      AgreementIsExact(s.(thread := Some(At(At(result, "thread"), "id").s)));
    }
  }

  ghost predicate TurnOk(result: Json) {
    && Has(result, "turn") && Names(At(result, "turn"), "id")
    && (Says(At(result, "turn"), "status", "inProgress") || Says(At(result, "turn"), "status", "completed"))
    && (Has(At(result, "turn"), "error") ==> At(At(result, "turn"), "error").Null?)
  }

  lemma TurnIsExact(s: State, result: Json)
    ensures TurnResult(s, result)
         == if TurnOk(result) && Agree(s.thread, Some(At(At(result, "turn"), "id").s), s.threadEvents, s.scopes)
            then Some(s.(turn := Some(At(At(result, "turn"), "id").s)))
            else None
  {
    hide CheckScope, Agree;
    if Has(result, "turn") && Names(At(result, "turn"), "id") {
      AgreementIsExact(s.(turn := Some(At(At(result, "turn"), "id").s)));
    }
  }

  // ---------------------------------------------------------------- the startup snapshot

  /** The code points that count as white space at the ends of a text. */
  const WHITE: set<int> := {
    0x09, 0x0a, 0x0b, 0x0c, 0x0d, 0x1c, 0x1d, 0x1e, 0x1f, 0x20, 0x85, 0xa0, 0x1680, 0x2000, 0x2001, 0x2002, 0x2003,
    0x2004, 0x2005, 0x2006, 0x2007, 0x2008, 0x2009, 0x200a, 0x2028, 0x2029, 0x202f, 0x205f, 0x3000
  }

  /** How many characters are at or above a code point. */
  ghost function From(text: string, point: int): nat {
    if text == "" then 0 else From(text[..|text| - 1], point) + if text[|text| - 1] as int >= point then 1 else 0
  }

  ghost predicate ServerNameOk(name: string) {
    && name != "" && name[0] as int !in WHITE && name[|name| - 1] as int !in WHITE
    && (forall i | 0 <= i < |name| :: name[i] as int >= 32 && name[i] as int != 127)
    && |name| + From(name, 0x80) + From(name, 0x800) + From(name, 0x10000) <= 255
  }

  ghost predicate UuidOk(text: string) {
    && |text| == 36 && text[8] == text[13] == text[18] == text[23] == '-'
    && forall i | 0 <= i < 36 && i != 8 && i != 13 && i != 18 && i != 23 :: text[i] in "0123456789abcdef"
  }

  /** Exactly these fields: remote control is disabled, without an environment, at a time, under a name and an id. */
  ghost predicate SnapshotOk(frame: Json) {
    && frame.Obj? && frame.fields.Keys == {"method", "params", "emittedAtMs"}
    && var params, time := At(frame, "params"), At(frame, "emittedAtMs");
    && params.Obj? && params.fields.Keys == {"status", "serverName", "installationId", "environmentId"}
    && Says(params, "status", "disabled") && At(params, "environmentId") == Null
    && time.Int? && 0 <= time.n < 0x8000_0000_0000_0000
    && SaysText(params, "serverName") && ServerNameOk(At(params, "serverName").s)
    && SaysText(params, "installationId") && UuidOk(At(params, "installationId").s)
  }

  lemma {:induction false} FromBelow(text: string, point: int)
    ensures text != "" ==> From(text, point) == From(text[1..], point) + if text[0] as int >= point then 1 else 0
  {
    if |text| > 1 {
      FromBelow(text[..|text| - 1], point);
      assert text[..|text| - 1][1..] == text[1..][..|text| - 2];
    } else if |text| == 1 {
      assert text[1..] == "" && text[..0] == "";
    }
  }

  lemma {:induction false} BytesAreCounted(text: string)
    ensures Utf8Length(text) == |text| + From(text, 0x80) + From(text, 0x800) + From(text, 0x10000)
  {
    if text != "" {
      BytesAreCounted(text[1..]);
      FromBelow(text, 0x80);
      FromBelow(text, 0x800);
      FromBelow(text, 0x10000);
    }
  }

  lemma WhiteIsStripped(c: char)
    ensures IsStripped(c) <==> c as int in WHITE
  {
  }

  lemma ServerNamesAreExact(name: string)
    ensures IsServerName(name) <==> ServerNameOk(name)
  {
    hide IsStripped, Utf8Length, From;
    BytesAreCounted(name);
    if name != "" {
      WhiteIsStripped(name[0]);
      WhiteIsStripped(name[|name| - 1]);
    }
    assert forall i | 0 <= i < |name| :: name[i] in name;
  }

  lemma UuidsAreExact(text: string)
    ensures IsCanonicalUuid(text) <==> UuidOk(text)
  {
    var digits := "0123456789abcdef";
    forall c: char
      ensures c in digits <==> '0' <= c <= '9' || 'a' <= c <= 'f'
    {
      HexDigits(c);
    }
  }

  lemma HexDigits(c: char)
    ensures c in "0123456789abcdef" <==> '0' <= c <= '9' || 'a' <= c <= 'f'
  {
    var digits := "0123456789abcdef";
    assert digits[0] == '0' && digits[1] == '1' && digits[2] == '2' && digits[3] == '3' && digits[4] == '4';
    assert digits[5] == '5' && digits[6] == '6' && digits[7] == '7' && digits[8] == '8' && digits[9] == '9';
    assert digits[10] == 'a' && digits[11] == 'b' && digits[12] == 'c' && digits[13] == 'd' && digits[14] == 'e';
    assert digits[15] == 'f';
  }

  lemma SnapshotsAreExact(frame: Json)
    ensures IsDisabledSnapshot(frame) <==> SnapshotOk(frame)
  {
    hide IsServerName, ServerNameOk, IsCanonicalUuid, UuidOk;
    if Has(frame, "params") && SaysText(At(frame, "params"), "serverName") {
      ServerNamesAreExact(At(At(frame, "params"), "serverName").s);
    }
    if Has(frame, "params") && SaysText(At(frame, "params"), "installationId") {
      UuidsAreExact(At(At(frame, "params"), "installationId").s);
    }
  }

  // ---------------------------------------------------------------- notifications

  ghost predicate ShapeOk(frame: Json) {
    && SaysText(frame, "method") && Has(frame, "params") && At(frame, "params").Obj?
    && (Has(At(frame, "params"), "threadId") ==> Names(At(frame, "params"), "threadId"))
    && (Has(At(frame, "params"), "turnId") ==> Names(At(frame, "params"), "turnId"))
  }

  ghost predicate Unanswered(s: State, kind: Method) {
    exists id :: id in s.pending && s.pending[id] == kind
  }

  ghost predicate IsAbout(topic: string, prefix: string) {
    |topic| >= |prefix| && forall i | 0 <= i < |prefix| :: topic[i] == prefix[i]
  }

  ghost predicate AboutATurn(topic: string) {
    IsAbout(topic, "item/") || IsAbout(topic, "turn/")
  }

  /** Items and turns from the written turn request up to the completion, threads from the written thread request. */
  ghost predicate StageOk(s: State, topic: string) {
    if AboutATurn(topic) then (s.turn.Some? || Unanswered(s, TurnStart)) && s.completed == []
    else IsAbout(topic, "thread/") ==> s.thread.Some? || Unanswered(s, ThreadStart)
  }

  lemma StagesAreExact(s: State, topic: string)
    ensures InStage(s, topic) <==> StageOk(s, topic)
    ensures forall kind :: Awaiting(s, kind) <==> Unanswered(s, kind)
    ensures TurnScoped(topic) <==> AboutATurn(topic)
  {
    Prefixes(topic, "item/");
    Prefixes(topic, "turn/");
    Prefixes(topic, "thread/");
    forall kind
      ensures Awaiting(s, kind) <==> Unanswered(s, kind)
    {
      if Awaiting(s, kind) {
        var id := ValueHasAKey(s.pending, kind);
      }
    }
  }

  lemma ValueHasAKey<K, V>(m: map<K, V>, value: V) returns (key: K)
    requires value in m.Values
    ensures key in m && m[key] == value
  {
    key :| key in m && m[key] == value;
  }

  lemma Prefixes(topic: string, prefix: string)
    ensures prefix <= topic <==> IsAbout(topic, prefix)
  {
  }

  /** The topics that only inform. */
  const TOPICS: set<string> := {
    "thread/status/changed", "thread/name/updated", "thread/tokenUsage/updated",
    "turn/diff/updated", "turn/plan/updated", "item/started", "item/agentMessage/delta",
    "item/commandExecution/outputDelta", "item/commandExecution/terminalInteraction",
    "item/fileChange/outputDelta", "item/fileChange/patchUpdated", "item/reasoning/summaryTextDelta",
    "item/reasoning/summaryPartAdded", "item/reasoning/textDelta", "account/rateLimits/updated", "item/completed"
  }

  ghost predicate OpeningOk(s: State, frame: Json) {
    && s.initializeComplete && s.snapshot.None? && s.pages == 0 && s.thread.None? && s.turn.None? && s.completed == []
    && !Unanswered(s, ModelList) && !Unanswered(s, ThreadStart) && !Unanswered(s, TurnStart) && SnapshotOk(frame)
  }

  ghost predicate ThreadNoticeOk(s: State, params: Json) {
    && Has(params, "thread") && Has(At(params, "thread"), "id")
    && (s.thread.Some? || Unanswered(s, ThreadStart)) && s.threadEvents == []
  }

  ghost predicate TurnNoticeOk(s: State, topic: string, params: Json) {
    && SaysText(params, "threadId") && Has(params, "turn") && Names(At(params, "turn"), "id")
    && var turn := At(params, "turn");
    && if topic == "turn/completed"
       then Says(turn, "status", "completed") && Has(turn, "error") && At(turn, "error").Null? && s.completed == []
       else Says(turn, "status", "inProgress") || Says(turn, "status", "completed")
  }

  /** The one user message there can be: the prompt. */
  ghost predicate IsThePrompt(e: Expected, content: Json) {
    Counted(content)
    == Counted(Arr([Obj(map["type" := Str("text"), "text" := Str(e.prompt), "text_elements" := Arr([])])]))
  }

  ghost predicate KindOk(item: Json) {
    && SaysText(item, "type")
    && At(item, "type").s in {"userMessage", "agentMessage", "reasoning", "commandExecution", "fileChange", "plan"}
  }

  ghost predicate ItemOk(e: Expected, item: Json) {
    && KindOk(item) && SaysText(item, "id")
    && (Says(item, "type", "userMessage") ==> Has(item, "content") && IsThePrompt(e, At(item, "content")))
  }

  ghost predicate InformationOk(e: Expected, s: State, topic: string, params: Json) {
    && topic in TOPICS
    && (AboutATurn(topic) ==> SaysText(params, "threadId") && SaysText(params, "turnId"))
    && (topic == "item/started" || topic == "item/completed" ==>
          Has(params, "item") && ItemOk(e, At(params, "item")))
    && (topic == "item/completed" ==>
          && At(At(params, "item"), "id").s !in s.completedItems
          && (Says(At(params, "item"), "type", "agentMessage") ==> SaysText(At(params, "item"), "text")))
  }

  ghost function Maybe(params: Json, key: string): Option<string> {
    if SaysText(params, key) then Some(At(params, key).s) else None
  }

  /** What the session keeps of it. */
  ghost function Noted(s: State, frame: Json): State
    requires ShapeOk(frame)
  {
    var topic, params := At(frame, "method").s, At(frame, "params");
    if topic == "remoteControl/status/changed" then Queued(s.(snapshot := Some(params)), CallModelList(None))
    else if topic == "thread/started" then
      if Has(params, "thread") && Has(At(params, "thread"), "id")
      then s.(threadEvents := [At(At(params, "thread"), "id")]) else s
    else if topic == "turn/started" || topic == "turn/completed" then
      if !Has(params, "turn") then s
      else
        s.(scopes := s.scopes + [Scope(Maybe(params, "threadId"), Maybe(At(params, "turn"), "id"))],
           completed := if topic == "turn/completed" then [At(params, "turn")] else s.completed)
    else
      var s' := s.(scopes := s.scopes + [Scope(Maybe(params, "threadId"), Maybe(params, "turnId"))]);
      if topic != "item/completed" || !Has(params, "item") || !SaysText(At(params, "item"), "id") then s'
      else
        var item := At(params, "item");
        s'.(completedItems := s.completedItems + {At(item, "id").s},
            answers := if Says(item, "type", "agentMessage") then s.answers + [item] else s.answers)
  }

  ghost predicate TopicOk(e: Expected, s: State, frame: Json)
    requires ShapeOk(frame)
  {
    var topic, params := At(frame, "method").s, At(frame, "params");
    if topic == "remoteControl/status/changed" then OpeningOk(s, frame)
    else if topic == "thread/started" then ThreadNoticeOk(s, params)
    else if topic == "turn/started" || topic == "turn/completed" then TurnNoticeOk(s, topic, params)
    else InformationOk(e, s, topic, params)
  }

  ghost predicate NoticeOk(e: Expected, s: State, frame: Json) {
    && ShapeOk(frame) && StageOk(s, At(frame, "method").s) && TopicOk(e, s, frame)
    && var s' := Noted(s, frame);
    Agree(s'.thread, s'.turn, s'.threadEvents, s'.scopes)
  }

  /** What a notification reads like whenever it comes. */
  ghost predicate NoticeReads(e: Expected, frame: Json) {
    && ShapeOk(frame)
    && var topic, params := At(frame, "method").s, At(frame, "params");
    if topic == "remoteControl/status/changed" then SnapshotOk(frame)
    else if topic == "thread/started" then Has(params, "thread") && Has(At(params, "thread"), "id")
    else if topic == "turn/started" || topic == "turn/completed" then
      && SaysText(params, "threadId") && Has(params, "turn") && Names(At(params, "turn"), "id")
      && var turn := At(params, "turn");
      && (Says(turn, "status", "completed") || (topic == "turn/started" && Says(turn, "status", "inProgress")))
      && (topic == "turn/completed" ==> Has(turn, "error") && At(turn, "error").Null?)
    else
      && topic in TOPICS
      && (AboutATurn(topic) ==> SaysText(params, "threadId") && SaysText(params, "turnId"))
      && (topic in {"item/started", "item/completed"} ==> Has(params, "item") && ItemOk(e, At(params, "item")))
      && (topic == "item/completed" && Says(At(params, "item"), "type", "agentMessage") ==>
            SaysText(At(params, "item"), "text"))
  }

  lemma TakenReads(e: Expected, s: State, frame: Json)
    requires NoticeOk(e, s, frame)
    ensures NoticeReads(e, frame)
  {
    hide Agree, StageOk, Noted, SnapshotOk, IsThePrompt, AboutATurn;
  }

  lemma RemoteIsExact(s: State, frame: Json)
    requires ShapeOk(frame) && Says(frame, "method", "remoteControl/status/changed")
    ensures RemoteStatus(s, frame) == if OpeningOk(s, frame) then Some(Noted(s, frame)) else None
  {
    hide IsDisabledSnapshot, SnapshotOk, Awaiting, Unanswered, InStage, StageOk, TurnScoped, AboutATurn;
    SnapshotsAreExact(frame);
    StagesAreExact(s, "");
  }

  lemma ThreadNoticeIsExact(s: State, frame: Json)
    requires ShapeOk(frame) && Says(frame, "method", "thread/started")
    ensures ThreadStarted(s, At(frame, "params"))
         == if ThreadNoticeOk(s, At(frame, "params")) then Some(Noted(s, frame)) else None
  {
    hide Awaiting, Unanswered, InStage, StageOk, TurnScoped, AboutATurn;
    StagesAreExact(s, "");
  }

  lemma TurnNoticeIsExact(s: State, frame: Json)
    requires ShapeOk(frame) && (s.turn.Some? || Unanswered(s, TurnStart))
    requires Says(frame, "method", "turn/started") || Says(frame, "method", "turn/completed")
    ensures TurnEvent(s, At(frame, "method").s, At(frame, "params"))
         == if TurnNoticeOk(s, At(frame, "method").s, At(frame, "params")) then Some(Noted(s, frame)) else None
  {
    hide Awaiting, Unanswered, InStage, StageOk, TurnScoped, AboutATurn;
    StagesAreExact(s, "");
  }

  lemma PromptIsExact(e: Expected, content: Json)
    ensures PyEq(content, Protocol.Input(e)) <==> IsThePrompt(e, content)
  {
    hide PyEq, Counted;
    EqualityIsExact(content, Protocol.Input(e));
  }

  lemma ItemsAreExact(e: Expected, item: Json)
    ensures (IsItem(item) && IsStr(Get(item, "id"))
             && (HasText(item, "type", "userMessage") ==>
                   Get(item, "content").Some? && PyEq(Get(item, "content").value, Protocol.Input(e))))
       <==> ItemOk(e, item)
  {
    hide PyEq, IsThePrompt;
    if Has(item, "content") {
      PromptIsExact(e, At(item, "content"));
    }
  }

  lemma InformationIsExact(e: Expected, s: State, frame: Json)
    requires ShapeOk(frame)
    requires var topic := At(frame, "method").s;
      topic !in {"remoteControl/status/changed", "thread/started", "turn/started", "turn/completed"}
    ensures var topic, params := At(frame, "method").s, At(frame, "params");
      (if topic in INFO || topic == "item/completed" then Information(e, s, topic, params) else None)
      == if InformationOk(e, s, topic, params) then Some(Noted(s, frame)) else None
  {
    hide TurnScoped, AboutATurn, PyEq, IsThePrompt, Protocol.Input, InStage, StageOk, Awaiting, Unanswered;
    var topic, params := At(frame, "method").s, At(frame, "params");
    StagesAreExact(s, topic);
    if Has(params, "item") {
      ItemsAreExact(e, At(params, "item"));
    }
    assert topic in INFO || topic == "item/completed" <==> topic in TOPICS;
  }

  /** A notification is taken exactly when it is of a known kind, complete, in time and of this thread and turn. */
  lemma NoticeIsExact(e: Expected, s: State, frame: Json)
    ensures Notify(e, s, frame) == if NoticeOk(e, s, frame) then Some(Noted(s, frame)) else None
  {
    hide RemoteStatus, ThreadStarted, TurnEvent, Information, InStage, StageOk, CheckScope, Agree, Noted;
    hide OpeningOk, ThreadNoticeOk, TurnNoticeOk, InformationOk, INFO;
    if ShapeOk(frame) {
      var topic, params := At(frame, "method").s, At(frame, "params");
      StagesAreExact(s, topic);
      AgreementIsExact(Noted(s, frame));
      if topic == "remoteControl/status/changed" {
        RemoteIsExact(s, frame);
      } else if topic == "thread/started" {
        ThreadNoticeIsExact(s, frame);
      } else if topic == "turn/started" || topic == "turn/completed" {
        if StageOk(s, topic) {
          InTime(s, topic);
          TurnNoticeIsExact(s, frame);
        }
      } else {
        InformationIsExact(e, s, frame);
      }
    }
  }

  lemma InTime(s: State, topic: string)
    requires StageOk(s, topic) && (topic == "turn/started" || topic == "turn/completed")
    ensures s.turn.Some? || Unanswered(s, TurnStart)
  {
    var prefix := "turn/";
    assert forall i | 0 <= i < |prefix| :: topic[i] == prefix[i];
  }

  // ---------------------------------------------------------------- finishing

  /** An item repeated inside the completed turn agrees with the answer of the same id. */
  ghost predicate RepetitionOk(e: Expected, answers: seq<Json>, item: Json) {
    && KindOk(item)
    && (Says(item, "type", "userMessage") ==> Has(item, "content") && IsThePrompt(e, At(item, "content")))
    && (Says(item, "type", "agentMessage") ==>
          Has(item, "id") && exists i :: IsRepetitionOf(answers, item, i))
  }

  ghost predicate IsFirstOf(answers: seq<Json>, id: Json, i: nat) {
    && i < |answers| && Has(answers[i], "id") && At(answers[i], "id") == id
    && forall j | 0 <= j < i :: !(Has(answers[j], "id") && At(answers[j], "id") == id)
  }

  /** Answer i is the first of that id, of the same text, and of the same phase if one is given. */
  ghost predicate IsRepetitionOf(answers: seq<Json>, item: Json, i: nat)
    requires Has(item, "id")
  {
    i < |answers| && IsFirstOf(answers, At(item, "id"), i)
    && Shares(item, answers[i])
  }

  ghost predicate Shares(item: Json, known: Json) {
    && Has(item, "text") && Has(known, "text") && At(item, "text") == At(known, "text")
    && (Has(item, "phase") ==>
          Counted(At(item, "phase")) == Counted(if Has(known, "phase") then At(known, "phase") else Null))
  }

  ghost predicate RepetitionsOk(e: Expected, answers: seq<Json>, turn: Json) {
    Has(turn, "items") ==>
      match At(turn, "items")
      case Arr(items) => forall i | 0 <= i < |items| :: RepetitionOk(e, answers, items[i])
      case Obj(fields) => forall k :: k !in fields
      case Str(text) => |text| == 0
      case _ => false
  }

  ghost predicate FinishOk(e: Expected, parseText: string -> Option<Json>, s: State, answer: Json) {
    && s.initializeComplete && s.snapshot.Some? && |s.ready| == 0 && |s.pending| == 0
    && s.thread.Some? && s.turn.Some? && |s.completed| == 1 && Agree(s.thread, s.turn, s.threadEvents, s.scopes)
    && SaysText(answer, "text") && parseText(At(answer, "text").s).Some?
    && Has(parseText(At(answer, "text").s).value, "schema_version")
    && At(parseText(At(answer, "text").s).value, "schema_version") == Int(2)
    && RepetitionsOk(e, s.answers, s.completed[0])
  }

  lemma {:induction false} FirstOfItsId(answers: seq<Json>, id: Json, i: nat)
    requires IsFirstOf(answers, id, i)
    ensures AnswerById(answers, Some(id)) == Some(answers[i])
  {
    if i > 0 {
      assert !(Has(answers[0], "id") && At(answers[0], "id") == id);
      assert forall j | 0 <= j < |answers| - 1 :: answers[1..][j] == answers[j + 1];
      FirstOfItsId(answers[1..], id, i - 1);
    }
  }

  lemma {:induction false} FoundIsFirst(answers: seq<Json>, id: Json) returns (i: nat)
    requires AnswerById(answers, Some(id)).Some?
    ensures IsFirstOf(answers, id, i)
  {
    if Get(answers[0], "id") == Some(id) {
      i := 0;
    } else {
      var rest := FoundIsFirst(answers[1..], id);
      i := rest + 1;
      forall j | 0 <= j < i
        ensures !(Has(answers[j], "id") && At(answers[j], "id") == id)
      {
        assert j > 0 ==> answers[j] == answers[1..][j - 1];
      }
    }
  }

  /** What an item has to share with the answer of its id. */
  lemma SharedIsExact(item: Json, known: Json)
    ensures (Get(item, "text").Some? && Get(item, "text") == Get(known, "text")
             && (Get(item, "phase").Some? ==> PyEq(Get(item, "phase").value, OrNull(Get(known, "phase")))))
       <==> Shares(item, known)
  {
    hide PyEq, Counted;
    if Has(item, "phase") {
      EqualityIsExact(At(item, "phase"), OrNull(Get(known, "phase")));
    }
  }

  lemma RepetitionIsExact(e: Expected, answers: seq<Json>, item: Json)
    ensures RepeatedItem(e, answers, item) <==> RepetitionOk(e, answers, item)
  {
    hide PyEq, IsThePrompt, AnswerById, Shares, IsFirstOf;
    if Has(item, "content") {
      PromptIsExact(e, At(item, "content"));
    }
    if !Has(item, "id") {
      NoAnswerWithoutId(answers);
    } else {
      var id := At(item, "id");
      var known := AnswerById(answers, Some(id));
      if known.Some? {
        var i := FoundIsFirst(answers, id);
        FirstOfItsId(answers, id, i);
        SharedIsExact(item, known.value);
        assert Shares(item, known.value) ==> IsRepetitionOf(answers, item, i);
      }
      forall i: nat | IsRepetitionOf(answers, item, i)
        ensures known == Some(answers[i]) && Shares(item, known.value)
      {
        FirstOfItsId(answers, id, i);
      }
    }
  }

  lemma {:induction false} NoAnswerWithoutId(answers: seq<Json>)
    ensures AnswerById(answers, None).None?
  {
    if answers != [] {
      NoAnswerWithoutId(answers[1..]);
    }
  }

  /** A session finishes exactly when all was said, once and in agreement, and the answer is versioned JSON. */
  lemma FinishIsExact(e: Expected, parseText: string -> Option<Json>, s: State)
    ensures Finish(e, parseText, s).Some? <==>
              FinalAnswer(s.answers).Some? && FinishOk(e, parseText, s, FinalAnswer(s.answers).value)
    ensures Finish(e, parseText, s).Some? ==>
      Finish(e, parseText, s).value
      == Verdict(s.thread.value, s.turn.value, At(FinalAnswer(s.answers).value, "text").s)
  {
    hide FinalAnswer, CheckScope, Agree, RepeatedItem, RepetitionOk;
    AgreementIsExact(s);
    if |s.completed| == 1 {
      RepetitionsAreExact(e, s.answers, s.completed[0]);
    }
  }

  lemma RepetitionsAreExact(e: Expected, answers: seq<Json>, turn: Json)
    ensures CompletedTurnAgrees(e, answers, turn) <==> RepetitionsOk(e, answers, turn)
  {
    hide RepeatedItem, RepetitionOk;
    if Has(turn, "items") && At(turn, "items").Arr? {
      var items := At(turn, "items").items;
      forall i | 0 <= i < |items|
        ensures RepeatedItem(e, answers, items[i]) <==> RepetitionOk(e, answers, items[i])
      {
        RepetitionIsExact(e, answers, items[i]);
      }
    }
  }

  // ---------------------------------------------------------------- what the client writes

  ghost function Message(id: int, topic: string, params: Json): Json {
    Obj(map["id" := Int(id), "method" := Str(topic), "params" := params])
  }

  ghost function Greeting(): Json {
    Message(1, "initialize", Obj(map[
      "clientInfo" := Obj(map["name" := Str("autodata-r0"), "title" := Str("AutoData R0"), "version" := Str("1")]),
      "capabilities" := Obj(map["experimentalApi" := Bool(false), "optOutNotificationMethods" := Arr([])])]))
  }

  ghost function PageWanted(id: int, cursor: Json): Json {
    Message(id, "model/list", Obj(map["cursor" := cursor, "limit" := Int(100), "includeHidden" := Bool(true)]))
  }

  ghost function ThreadWanted(e: Expected, id: int): Json {
    Message(id, "thread/start", Obj(map[
      "model" := Str("gpt-6.1-sol"), "modelProvider" := Str("openai"), "serviceTier" := Str("priority"),
      "cwd" := Str(e.cwd), "approvalPolicy" := Str("never"), "sandbox" := Str("danger-full-access"),
      "ephemeral" := Bool(true),
      "config" := Obj(map["model_reasoning_effort" := Str("medium"), "features.fast_mode" := Bool(true)])]))
  }

  ghost function TurnWanted(e: Expected, id: int, threadId: string): Json {
    Message(id, "turn/start", Obj(map[
      "threadId" := Str(threadId), "outputSchema" := e.schema,
      "input" := Arr([Obj(map["type" := Str("text"), "text" := Str(e.prompt), "text_elements" := Arr([])])])]))
  }

  ghost function Dictated(e: Expected, c: ClientFrame): Json {
    match c
    case Initialized => Obj(map["method" := Str("initialized")])
    case Request(id, CallInitialize) => Message(id, "initialize", At(Greeting(), "params"))
    case Request(id, CallModelList(cursor)) => PageWanted(id, if cursor.Some? then Str(cursor.value) else Null)
    case Request(id, CallThreadStart) => ThreadWanted(e, id)
    case Request(id, CallTurnStart(threadId)) => TurnWanted(e, id, threadId)
  }

  lemma WireIsDictated(e: Expected, c: ClientFrame)
    ensures Wire(e, c) == Dictated(e, c)
  {
    match c
    case Initialized =>
    case Request(id, CallInitialize) =>
    case Request(id, CallModelList(cursor)) =>
    case Request(id, CallThreadStart) =>
    case Request(id, CallTurnStart(threadId)) =>
      assert Params(e, CallTurnStart(threadId)) == At(TurnWanted(e, id, threadId), "params");
  }

  ghost function Written(s: State): State
    requires |s.ready| > 0
  {
    var c := s.ready[0];
    var pending := match c
                   case Initialized => s.pending
                   case Request(id, CallInitialize) => s.pending[id := Initialize]
                   case Request(id, CallModelList(_)) => s.pending[id := ModelList]
                   case Request(id, CallThreadStart) => s.pending[id := ThreadStart]
                   case Request(id, CallTurnStart(_)) => s.pending[id := TurnStart];
    s.(ready := s.ready[1..], pending := pending)
  }

  /** A client frame is taken exactly when it is the first one queued; a request then waits for its answer. */
  lemma WritingIsExact(e: Expected, s: State, frame: Json)
    ensures FeedClient(e, s, frame).Some? <==>
      && (Has(frame, "id") ==> At(frame, "id").Int?)
      && |s.ready| > 0 && Counted(frame) == Counted(Dictated(e, s.ready[0]))
    ensures FeedClient(e, s, frame).Some? ==> FeedClient(e, s, frame).value == Written(s)
  {
    hide Wire, PyEq, Counted, Dictated;
    if s.ready != [] {
      WireIsDictated(e, s.ready[0]);
      EqualityIsExact(frame, Wire(e, s.ready[0]));
    }
  }

  /** A response is to an unanswered request, is no error, and has a result that is right for its kind. */
  lemma AnswerIsExact(e: Expected, s: State, frame: Json)
    ensures FeedResponse(e, s, frame)
      == if && Has(frame, "id") && At(frame, "id").Int? && At(frame, "id").n in s.pending
            && !Has(frame, "method") && !Has(frame, "error") && Has(frame, "result") && At(frame, "result").Obj?
         then
           var id, result := At(frame, "id").n, At(frame, "result");
           var s' := s.(pending := map k | k in s.pending && k != id :: s.pending[k]);
           match s.pending[id]
           case Initialize => InitializeResult(e, s', result)
           case ModelList => PageResult(s', result)
           case ThreadStart => ThreadResult(e, s', result)
           case TurnStart => TurnResult(s', result)
         else None
  {
    hide InitializeResult, PageResult, ThreadResult, TurnResult;
    if Has(frame, "id") && At(frame, "id").Int? {
      var id := At(frame, "id").n;
      assert s.pending - {id} == map k | k in s.pending && k != id :: s.pending[k];
    }
  }
}
