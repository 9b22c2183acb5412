/**
 The meaning of one app-server session, frame by frame: what `_Session.feed`, `response`,
 `check_scope` and `finish` accept and what state they leave. A step that raises is `None`.
 */
module Protocol {
  import opened Wrappers
  import opened JsonValues
  import opened Texts

  const MAX_PAGES := 16
  const MAX_PAGE_MODELS := 100
  const MAX_MODELS := 1600
  const MAX_SERVER_NAME := 255
  const MAX_TIMESTAMP := 0x7fff_ffff_ffff_ffff

  const INFO: set<string> := {
    "thread/status/changed", "thread/name/updated", "thread/tokenUsage/updated",
    "turn/diff/updated", "turn/plan/updated", "item/started", "item/agentMessage/delta",
    "item/commandExecution/outputDelta", "item/commandExecution/terminalInteraction",
    "item/fileChange/outputDelta", "item/fileChange/patchUpdated", "item/reasoning/summaryTextDelta",
    "item/reasoning/summaryPartAdded", "item/reasoning/textDelta", "account/rateLimits/updated"
  }

  const ITEMS: set<string> := {
    "userMessage", "agentMessage", "reasoning", "commandExecution", "fileChange", "plan"
  }

  /** What the caller fixed before the provider started. */
  datatype Expected = Expected(prompt: string, schema: Json, cwd: string, codexHome: string)

  datatype Direction = Client | Server | Unknown

  datatype Event = Event(direction: Direction, frame: Json)

  datatype Method = Initialize | ModelList | ThreadStart | TurnStart

  /** The frames the client is obliged to write, in the order they are queued. */
  datatype ClientFrame =
    | Request(id: int, call: Call)
    | Initialized

  datatype Call =
    | CallInitialize
    | CallModelList(cursor: Option<string>)
    | CallThreadStart
    | CallTurnStart(threadId: string)

  datatype Scope = Scope(threadId: Option<string>, turnId: Option<string>)

  datatype State = State(
    ready: seq<ClientFrame>,
    pending: map<int, Method>,
    nextId: int,
    initializeComplete: bool,
    snapshot: Option<Json>,
    cursors: set<string>,
    models: seq<Json>,
    pages: nat,
    thread: Option<string>,
    turn: Option<string>,
    threadEvents: seq<Json>,
    scopes: seq<Scope>,
    completed: seq<Json>,
    answers: seq<Json>,
    completedItems: set<string>)

  datatype Verdict = Verdict(threadId: string, turnId: string, responseText: string)

  // ---------------------------------------------------------------- client frames

  function MethodOf(call: Call): Method {
    match call
    case CallInitialize => Initialize
    case CallModelList(_) => ModelList
    case CallThreadStart => ThreadStart
    case CallTurnStart(_) => TurnStart
  }

  function MethodName(m: Method): string {
    match m
    case Initialize => "initialize"
    case ModelList => "model/list"
    case ThreadStart => "thread/start"
    case TurnStart => "turn/start"
  }

  /** The user message every turn must carry. */
  function Input(e: Expected): Json {
    Arr([Obj(map["type" := Str("text"), "text" := Str(e.prompt), "text_elements" := Arr([])])])
  }

  function Params(e: Expected, call: Call): Json {
    match call
    case CallInitialize =>
      Obj(map["clientInfo" :=
                Obj(map["name" := Str("autodata-r0"), "title" := Str("AutoData R0"), "version" := Str("1")]),
              "capabilities" := Obj(map["experimentalApi" := Bool(false), "optOutNotificationMethods" := Arr([])])])
    case CallModelList(cursor) =>
      Obj(map["cursor" := if cursor.Some? then Str(cursor.value) else Null,
              "limit" := Int(100), "includeHidden" := Bool(true)])
    case CallThreadStart =>
      Obj(map["model" := Str("gpt-6.1-sol"), "modelProvider" := Str("openai"), "serviceTier" := Str("priority"),
              "cwd" := Str(e.cwd), "approvalPolicy" := Str("never"), "sandbox" := Str("danger-full-access"),
              "ephemeral" := Bool(true),
              "config" := Obj(map["model_reasoning_effort" := Str("medium"), "features.fast_mode" := Bool(true)])])
    case CallTurnStart(threadId) =>
      Obj(map["threadId" := Str(threadId), "input" := Input(e), "outputSchema" := e.schema])
  }

  /** The JSON value a queued client frame stands for. */
  function Wire(e: Expected, c: ClientFrame): Json {
    match c
    case Request(id, call) =>
      Obj(map["id" := Int(id), "method" := Str(MethodName(MethodOf(call))), "params" := Params(e, call)])
    case Initialized =>
      Obj(map["method" := Str("initialized")])
  }

  function Enqueue(s: State, call: Call): State {
    s.(ready := s.ready + [Request(s.nextId, call)], nextId := s.nextId + 1)
  }

  function Start(): State {
    Enqueue(State([], map[], 1, false, None, {}, [], 0, None, None, [], [], [], [], {}), CallInitialize)
  }

  predicate Awaiting(s: State, m: Method) {
    m in s.pending.Values
  }

  // ---------------------------------------------------------------- startup snapshot

  function Utf8Length(text: string): nat {
    if text == "" then 0
    else
      var n := text[0] as int;
      (if n < 0x80 then 1 else if n < 0x800 then 2 else if n < 0x10000 then 3 else 4) + Utf8Length(text[1..])
  }

  predicate IsServerName(name: string) {
    && name != ""
    && !IsStripped(name[0])
    && !IsStripped(name[|name| - 1])
    && (forall c | c in name :: 32 <= c as int && c as int != 127)
    && Utf8Length(name) <= MAX_SERVER_NAME
  }

  /** The lower-case hyphenated form: the only text that survives parsing as a UUID and printing again. */
  predicate IsCanonicalUuid(text: string) {
    && |text| == 36
    && forall i | 0 <= i < 36 ::
         if i in {8, 13, 18, 23} then text[i] == '-' else '0' <= text[i] <= '9' || 'a' <= text[i] <= 'f'
  }

  /** The pinned report that remote control is disabled and owns no environment. */
  predicate IsDisabledSnapshot(frame: Json) {
    && frame.Obj?
    && frame.fields.Keys == {"method", "params", "emittedAtMs"}
    && var params := frame.fields["params"];
    && params.Obj?
    && params.fields.Keys == {"status", "serverName", "installationId", "environmentId"}
    && params.fields["status"] == Str("disabled")
    && params.fields["environmentId"] == Null
    && frame.fields["emittedAtMs"].Int?
    && 0 <= frame.fields["emittedAtMs"].n <= MAX_TIMESTAMP
    && params.fields["serverName"].Str?
    && IsServerName(params.fields["serverName"].s)
    && params.fields["installationId"].Str?
    && IsCanonicalUuid(params.fields["installationId"].s)
  }

  // ---------------------------------------------------------------- notifications

  predicate TurnScoped(topic: string) {
    "item/" <= topic || "turn/" <= topic
  }

  predicate ThreadScoped(topic: string) {
    "thread/" <= topic
  }

  predicate IdentityKey(params: Json, key: string) {
    Get(params, key).None? || IsNonemptyStr(Get(params, key))
  }

  function TextOf(o: Option<Json>): Option<string> {
    if IsStr(o) then Some(o.value.s) else None
  }

  function ParamScope(params: Json): Scope {
    Scope(TextOf(Get(params, "threadId")), TextOf(Get(params, "turnId")))
  }

  /** Every identity recorded so far agrees with the identities the responses have given. */
  predicate CheckScope(s: State) {
    && (s.thread.Some? ==>
          && (forall t | t in s.threadEvents :: t == Str(s.thread.value))
          && (forall c | c in s.scopes :: c.threadId.None? || c.threadId == s.thread))
    && (s.turn.Some? ==> forall c | c in s.scopes :: c.turnId.None? || c.turnId == s.turn)
  }

  /** Only records of what the server reported may differ: nothing queued, nothing answered, no identity learned. */
  ghost predicate SameDialogue(s: State, s': State) {
    s' == s.(threadEvents := s'.threadEvents, scopes := s'.scopes, completed := s'.completed,
             answers := s'.answers, completedItems := s'.completedItems)
  }

  /** The catalog is opened: the snapshot is kept and the first page request is queued. */
  ghost predicate OpensCatalog(s: State, s': State) {
    && s.initializeComplete && s.snapshot.None? && s'.snapshot.Some?
    && s' == Enqueue(s, CallModelList(None)).(snapshot := s'.snapshot)
  }

  function RemoteStatus(s: State, frame: Json): (r: Option<State>)
    ensures r.Some? ==> OpensCatalog(s, r.value)
  {
    var params :- Get(frame, "params");
    :- Need(s.initializeComplete && s.snapshot.None?);
    :- Need(s.pages == 0 && s.thread.None? && s.turn.None? && s.completed == []);
    :- Need(!Awaiting(s, ModelList) && !Awaiting(s, ThreadStart) && !Awaiting(s, TurnStart));
    :- Need(IsDisabledSnapshot(frame));
    Some(Enqueue(s.(snapshot := Some(params)), CallModelList(None)))
  }

  function ThreadStarted(s: State, params: Json): (r: Option<State>)
    ensures r.Some? ==> SameDialogue(s, r.value)
  {
    var thread :- Get(params, "thread");
    :- Need(s.thread.Some? || Awaiting(s, ThreadStart));
    var id :- Get(thread, "id");
    :- Need(s.threadEvents == []);
    Some(s.(threadEvents := [id]))
  }

  predicate RunningStatus(o: Option<Json>) {
    o == Some(Str("inProgress")) || o == Some(Str("completed"))
  }

  function TurnEvent(s: State, topic: string, params: Json): (r: Option<State>)
    ensures r.Some? ==> SameDialogue(s, r.value)
  {
    var turn :- Get(params, "turn");
    :- Need(s.turn.Some? || Awaiting(s, TurnStart));
    :- Need(turn.Obj? && IsStr(Get(params, "threadId")) && IsNonemptyStr(Get(turn, "id")));
    var s' := s.(scopes := s.scopes + [Scope(TextOf(Get(params, "threadId")), TextOf(Get(turn, "id")))]);
    :- Need(RunningStatus(Get(turn, "status")));
    if topic == "turn/completed" then
      :- Need(HasText(turn, "status", "completed") && Get(turn, "error") == Some(Null));
      :- Need(s.completed == []);
      Some(s'.(completed := [turn]))
    else
      Some(s')
  }

  predicate IsItem(item: Json) {
    item.Obj? && IsStr(Get(item, "type")) && Get(item, "type").value.s in ITEMS
  }

  function CompleteItem(s: State, item: Json): (r: Option<State>)
    requires IsItem(item) && IsStr(Get(item, "id"))
  {
    var id := Get(item, "id").value.s;
    :- Need(id !in s.completedItems);
    var s' := s.(completedItems := s.completedItems + {id});
    if HasText(item, "type", "agentMessage") then
      :- Need(IsStr(Get(item, "text")));
      Some(s'.(answers := s'.answers + [item]))
    else
      Some(s')
  }

  function Information(e: Expected, s: State, topic: string, params: Json): (r: Option<State>)
    ensures r.Some? ==> SameDialogue(s, r.value)
  {
    var s' := s.(scopes := s.scopes + [ParamScope(params)]);
    :- Need(TurnScoped(topic) ==> IsStr(Get(params, "threadId")) && IsStr(Get(params, "turnId")));
    if topic == "item/started" || topic == "item/completed" then
      var item :- Get(params, "item");
      :- Need(IsItem(item) && IsStr(Get(item, "id")));
      :- Need(HasText(item, "type", "userMessage") ==>
                Get(item, "content").Some? && PyEq(Get(item, "content").value, Input(e)));
      if topic == "item/completed" then CompleteItem(s', item) else Some(s')
    else
      Some(s')
  }

  predicate InStage(s: State, topic: string) {
    if TurnScoped(topic) then (s.turn.Some? || Awaiting(s, TurnStart)) && s.completed == []
    else ThreadScoped(topic) ==> s.thread.Some? || Awaiting(s, ThreadStart)
  }

  function Dispatch(e: Expected, s: State, topic: string, params: Json, frame: Json): (r: Option<State>)
    ensures r.Some? ==> SameDialogue(s, r.value) || OpensCatalog(s, r.value)
  {
    if topic == "remoteControl/status/changed" then RemoteStatus(s, frame)
    else if topic == "thread/started" then ThreadStarted(s, params)
    else if topic == "turn/started" || topic == "turn/completed" then TurnEvent(s, topic, params)
    else if topic in INFO || topic == "item/completed" then Information(e, s, topic, params)
    else None
  }

  function Notify(e: Expected, s: State, frame: Json): (r: Option<State>)
    ensures r.Some? ==> SameDialogue(s, r.value) || OpensCatalog(s, r.value)
  {
    var topic :- Get(frame, "method");
    var params :- Get(frame, "params");
    :- Need(topic.Str? && params.Obj?);
    :- Need(IdentityKey(params, "threadId") && IdentityKey(params, "turnId"));
    :- Need(InStage(s, topic.s));
    var s' :- Dispatch(e, s, topic.s, params, frame);
    :- Need(CheckScope(s'));
    Some(s')
  }

  // ---------------------------------------------------------------- responses

  function InitializeResult(e: Expected, s: State, result: Json): (r: Option<State>) {
    var identity := {"userAgent", "codexHome", "platformFamily", "platformOs"};
    :- Need(forall k | k in identity :: IsNonemptyStr(Get(result, k)));
    :- Need(HasText(result, "codexHome", e.codexHome));
    Some(s.(initializeComplete := true, ready := s.ready + [Initialized]))
  }

  predicate IsModel(m: Json) {
    m.Obj? && IsNonemptyStr(Get(m, "id"))
  }

  predicate ValidCatalog(models: seq<Json>) {
    && |models| <= MAX_MODELS
    && (forall m | m in models :: IsModel(m))
    && (forall i, j | 0 <= i < j < |models| :: Get(models[i], "id") != Get(models[j], "id"))
  }

  function ModelsNamed(models: seq<Json>, name: string): seq<Json> {
    if models == [] then []
    else
      var rest := ModelsNamed(models[..|models| - 1], name);
      var m := models[|models| - 1];
      if HasText(m, "model", name) then rest + [m] else rest
  }

  predicate Offers(m: Json, list: string, key: string, value: string) {
    && Get(m, list).Some?
    && Get(m, list).value.Arr?
    && exists x | x in Get(m, list).value.items :: HasText(x, key, value)
  }

  /** The catalog is exhausted: exactly one entry is the wanted model, with the wanted effort and tier. */
  predicate OffersProfile(models: seq<Json>) {
    var matches := ModelsNamed(models, "gpt-6.1-sol");
    && |matches| == 1
    && Offers(matches[0], "supportedReasoningEfforts", "reasoningEffort", "medium")
    && Offers(matches[0], "serviceTiers", "id", "priority")
  }

  function PageResult(s: State, result: Json): (r: Option<State>) {
    var data :- Get(result, "data");
    var cursor :- Get(result, "nextCursor");
    :- Need(data.Arr? && |data.items| <= MAX_PAGE_MODELS && s.pages + 1 <= MAX_PAGES);
    var s' := s.(pages := s.pages + 1, models := s.models + data.items);
    :- Need(ValidCatalog(s'.models));
    if !cursor.Null? then
      :- Need(cursor.Str? && cursor.s != "" && cursor.s !in s'.cursors && s'.pages < MAX_PAGES);
      Some(Enqueue(s'.(cursors := s'.cursors + {cursor.s}), CallModelList(Some(cursor.s))))
    else
      :- Need(OffersProfile(s'.models));
      Some(Enqueue(s', CallThreadStart))
  }

  predicate ResolvedSettings(e: Expected, result: Json) {
    && HasText(result, "model", "gpt-6.1-sol")
    && HasText(result, "modelProvider", "openai")
    && HasText(result, "reasoningEffort", "medium")
    && HasText(result, "serviceTier", "priority")
    && HasText(result, "cwd", e.cwd)
    && HasText(result, "approvalPolicy", "never")
    && Get(result, "sandbox") == Some(Obj(map["type" := Str("dangerFullAccess")]))
  }

  function ThreadResult(e: Expected, s: State, result: Json): (r: Option<State>) {
    var thread :- Get(result, "thread");
    :- Need(ResolvedSettings(e, result));
    var id :- Get(thread, "id");
    :- Need(id.Str? && id.s != "");
    var s' := s.(thread := Some(id.s));
    :- Need(CheckScope(s'));
    Some(Enqueue(s', CallTurnStart(id.s)))
  }

  function TurnResult(s: State, result: Json): (r: Option<State>) {
    var turn :- Get(result, "turn");
    var id :- Get(turn, "id");
    :- Need(id.Str? && id.s != "" && RunningStatus(Get(turn, "status")) && IsAbsentOrNull(Get(turn, "error")));
    var s' := s.(turn := Some(id.s));
    :- Need(CheckScope(s'));
    Some(s')
  }

  function Respond(e: Expected, s: State, kind: Method, result: Json): (r: Option<State>) {
    match kind
    case Initialize => InitializeResult(e, s, result)
    case ModelList => PageResult(s, result)
    case ThreadStart => ThreadResult(e, s, result)
    case TurnStart => TurnResult(s, result)
  }

  // ---------------------------------------------------------------- feed and finish

  function FeedClient(e: Expected, s: State, frame: Json): (r: Option<State>) {
    var id := Get(frame, "id");
    :- Need(id.None? || id.value.Int?);
    :- Need(s.ready != [] && PyEq(frame, Wire(e, s.ready[0])));
    var want := s.ready[0];
    var s' := s.(ready := s.ready[1..]);
    Some(if want.Request? then s'.(pending := s'.pending[want.id := MethodOf(want.call)]) else s')
  }

  function FeedResponse(e: Expected, s: State, frame: Json): (r: Option<State>) {
    var id :- Get(frame, "id");
    :- Need(Get(frame, "method").None?);
    :- Need(id.Int? && id.n in s.pending);
    var s' := s.(pending := s.pending - {id.n});
    :- Need(Get(frame, "error").None?);
    var result :- Get(frame, "result");
    :- Need(result.Obj?);
    Respond(e, s', s.pending[id.n], result)
  }

  function Feed(e: Expected, s: State, ev: Event): (r: Option<State>) {
    if !ev.frame.Obj? then None
    else
    match ev.direction
    case Client => FeedClient(e, s, ev.frame)
    case Server => if Get(ev.frame, "id").Some? then FeedResponse(e, s, ev.frame) else Notify(e, s, ev.frame)
    case Unknown => None
  }

  function WithPhase(answers: seq<Json>, phase: Option<string>): seq<Json> {
    if answers == [] then []
    else
      var rest := WithPhase(answers[..|answers| - 1], phase);
      var a := answers[|answers| - 1];
      if (if phase.Some? then HasText(a, "phase", phase.value) else IsAbsentOrNull(Get(a, "phase")))
      then rest + [a] else rest
  }

  /** The one answer that is the final response, when there is no doubt which one it is. */
  function FinalAnswer(answers: seq<Json>): (r: Option<Json>) {
    var finals := WithPhase(answers, Some("final_answer"));
    var selected := if finals != [] then finals else WithPhase(answers, None);
    :- Need(|selected| == 1 && (finals != [] || |answers| == 1));
    Some(selected[0])
  }

  function AnswerById(answers: seq<Json>, id: Option<Json>): Option<Json> {
    if answers == [] then None
    else if id.Some? && Get(answers[0], "id") == id then Some(answers[0])
    else AnswerById(answers[1..], id)
  }

  function OrNull(o: Option<Json>): Json {
    if o.Some? then o.value else Null
  }

  /** An item repeated inside the completed turn says what the item's own event said. */
  predicate RepeatedItem(e: Expected, answers: seq<Json>, item: Json) {
    && IsItem(item)
    && (HasText(item, "type", "userMessage") ==>
          Get(item, "content").Some? && PyEq(Get(item, "content").value, Input(e)))
    && (HasText(item, "type", "agentMessage") ==>
          var known := AnswerById(answers, Get(item, "id"));
          && known.Some?
          && Get(item, "text").Some?
          && Get(item, "text") == Get(known.value, "text")
          && (Get(item, "phase").Some? ==> PyEq(Get(item, "phase").value, OrNull(Get(known.value, "phase")))))
  }

  /** An empty text or object iterates as an empty list; anything else that is not a list is refused. */
  predicate CompletedTurnAgrees(e: Expected, answers: seq<Json>, turn: Json) {
    match Get(turn, "items")
    case None => true
    case Some(Arr(items)) => forall i | 0 <= i < |items| :: RepeatedItem(e, answers, items[i])
    case Some(Obj(fields)) => fields == map[]
    case Some(Str(text)) => text == ""
    case Some(_) => false
  }

  predicate IsVersion2(parsed: Option<Json>) {
    parsed.Some? && Get(parsed.value, "schema_version") == Some(Int(2))
  }

  /** `parseText` is the strict JSON reader; it is left open. */
  function Finish(e: Expected, parseText: string -> Option<Json>, s: State): (r: Option<Verdict>) {
    var answer :- FinalAnswer(s.answers);
    :- Need(s.initializeComplete && s.snapshot.Some?);
    :- Need(s.ready == [] && s.pending == map[] && s.thread.Some? && s.turn.Some? && |s.completed| == 1);
    :- Need(CheckScope(s));
    var text :- Get(answer, "text");
    :- Need(text.Str? && IsVersion2(parseText(text.s)));
    :- Need(CompletedTurnAgrees(e, s.answers, s.completed[0]));
    Some(Verdict(s.thread.value, s.turn.value, text.s))
  }

  /** Feeding a whole frame sequence; None as soon as one frame is refused. */
  function Run(e: Expected, evs: seq<Event>): (r: Option<State>) {
    if evs == [] then Some(Start())
    else
      var s :- Run(e, evs[..|evs| - 1]);
      Feed(e, s, evs[|evs| - 1])
  }

  /** The same, with every state on the way: the form in which properties of whole runs are stated. */
  ghost predicate Behaviour(e: Expected, evs: seq<Event>, states: seq<State>) {
    && |states| == |evs| + 1
    && states[0] == Start()
    && forall i {:trigger Feed(e, states[i], evs[i])} | 0 <= i < |evs| ::
         Feed(e, states[i], evs[i]) == Some(states[i + 1])
  }

  ghost function Last(states: seq<State>): State
    requires states != []
  {
    states[|states| - 1]
  }

  lemma BehaviourPrefix(e: Expected, evs: seq<Event>, states: seq<State>)
    requires Behaviour(e, evs, states) && evs != []
    ensures Behaviour(e, evs[..|evs| - 1], states[..|evs|])
    ensures Feed(e, Last(states[..|evs|]), evs[|evs| - 1]) == Some(Last(states))
  {
    hide Feed;
  }

  /** Every behaviour ends where feeding the frames one by one ends. */
  lemma {:induction false} BehaviourRuns(e: Expected, evs: seq<Event>, states: seq<State>)
    requires Behaviour(e, evs, states)
    ensures Run(e, evs) == Some(Last(states))
  {
    hide Feed;
    if evs != [] {
      BehaviourPrefix(e, evs, states);
      BehaviourRuns(e, evs[..|evs| - 1], states[..|evs|]);
    }
  }

  /** And every accepted frame sequence has a behaviour. */
  lemma {:induction false} RunHasBehaviour(e: Expected, evs: seq<Event>) returns (states: seq<State>)
    requires Run(e, evs).Some?
    ensures Behaviour(e, evs, states) && Last(states) == Run(e, evs).value
  {
    hide Feed;
    if evs == [] {
      states := [Start()];
    } else {
      var front := evs[..|evs| - 1];
      var before := RunHasBehaviour(e, front);
      states := before + [Run(e, evs).value];
      forall i | 0 <= i < |evs|
        ensures Feed(e, states[i], evs[i]) == Some(states[i + 1])
      {
        assert i < |front| ==> Feed(e, before[i], front[i]) == Some(before[i + 1]);
      }
    }
  }
}
