/**
 A session that is accepted, for every invocation context that names a Codex home, so that what the other files
 say of accepted sessions is said of something; and a context without one accepts none.
 */
module SmallestSession {
  import opened Wrappers
  import opened JsonValues
  import opened Protocol
  import opened Verdicts
  import opened Adapter

  // ---------------------------------------------------------------- its frames

  function Model(): Json {
    Obj(map["id" := Str("m"), "model" := Str("gpt-6.1-sol"),
            "supportedReasoningEfforts" := Arr([Obj(map["reasoningEffort" := Str("medium")])]),
            "serviceTiers" := Arr([Obj(map["id" := Str("priority")])])])
  }

  function Remote(): Json {
    Obj(map["status" := Str("disabled"), "environmentId" := Null, "serverName" := Str("s"),
            "installationId" := Str(Uuid())])
  }

  function Uuid(): string {
    seq(36, i => if i in {8, 13, 18, 23} then '-' else '0')
  }

  function Item(): Json {
    Obj(map["type" := Str("agentMessage"), "id" := Str("a"), "text" := Str("x")])
  }

  function Turn(): Json {
    Obj(map["id" := Str("u"), "status" := Str("completed"), "error" := Null])
  }

  function Both(): Scope {
    Scope(Some("t"), Some("u"))
  }

  function Greeting(e: Expected): Json {
    Obj(map["userAgent" := Str("a"), "codexHome" := Str(e.codexHome), "platformFamily" := Str("f"),
            "platformOs" := Str("o")])
  }

  function Page(): Json {
    Obj(map["data" := Arr([Model()]), "nextCursor" := Null])
  }

  function Thread(e: Expected): Json {
    Obj(map["thread" := Obj(map["id" := Str("t")]), "model" := Str("gpt-6.1-sol"), "modelProvider" := Str("openai"),
            "reasoningEffort" := Str("medium"), "serviceTier" := Str("priority"), "cwd" := Str(e.cwd),
            "approvalPolicy" := Str("never"), "sandbox" := Obj(map["type" := Str("dangerFullAccess")])])
  }

  function Begun(): Json {
    Obj(map["turn" := Obj(map["id" := Str("u"), "status" := Str("inProgress")])])
  }

  function Writes(e: Expected, c: ClientFrame): Event {
    Event(Client, Wire(e, c))
  }

  function Answers(id: int, result: Json): Event {
    Event(Server, Obj(map["id" := Int(id), "result" := result]))
  }

  function Tells(topic: string, params: Json): Event {
    Event(Server, Obj(map["method" := Str(topic), "params" := params]))
  }

  function Snapshot(): Event {
    Event(Server, Obj(map["method" := Str("remoteControl/status/changed"), "params" := Remote(),
            "emittedAtMs" := Int(0)]))
  }

  function CompletedItem(): Json {
    Obj(map["threadId" := Str("t"), "turnId" := Str("u"), "item" := Item()])
  }

  function CompletedTurn(): Json {
    Obj(map["threadId" := Str("t"), "turn" := Turn()])
  }

  function Events(e: Expected): seq<Event> {
    [Writes(e, Request(1, CallInitialize)), Answers(1, Greeting(e)), Writes(e, Initialized), Snapshot(),
     Writes(e, Request(2, CallModelList(None))), Answers(2, Page()),
     Writes(e, Request(3, CallThreadStart)), Answers(3, Thread(e)),
     Writes(e, Request(4, CallTurnStart("t"))), Answers(4, Begun()),
     Tells("item/completed", CompletedItem()), Tells("turn/completed", CompletedTurn())]
  }

  // ---------------------------------------------------------------- its states

  function Greeted(): State {
    State([Initialized], map[], 2, true, None, {}, [], 0, None, None, [], [], [], [], {})
  }

  function Opened(): State {
    Greeted().(ready := [Request(2, CallModelList(None))], nextId := 3, snapshot := Some(Remote()))
  }

  function Listed(): State {
    Opened().(ready := [Request(3, CallThreadStart)], nextId := 4, models := [Model()], pages := 1)
  }

  function Threaded(): State {
    Listed().(ready := [Request(4, CallTurnStart("t"))], nextId := 5, thread := Some("t"))
  }

  function Started(): State {
    Threaded().(ready := [], turn := Some("u"))
  }

  function Answered(): State {
    Started().(scopes := [Both()], answers := [Item()], completedItems := {"a"})
  }

  function Done(): State {
    Answered().(scopes := [Both(), Both()], completed := [Turn()])
  }

  function States(): seq<State> {
    [Start(), Start().(ready := [], pending := map[1 := Initialize]),
     Greeted(), Greeted().(ready := []),
     Opened(), Opened().(ready := [], pending := map[2 := ModelList]),
     Listed(), Listed().(ready := [], pending := map[3 := ThreadStart]),
     Threaded(), Threaded().(ready := [], pending := map[4 := TurnStart]),
     Started(), Answered(), Done()]
  }

  // ---------------------------------------------------------------- its steps

  lemma {:induction false} EqualToItself(j: Json)
    ensures PyEq(j, j)
  {
    match j
    case Arr(items) =>
      forall i | 0 <= i < |items|
        ensures PyEq(items[i], items[i])
      {
        EqualToItself(items[i]);
      }
    case Obj(fields) =>
      forall k | k in fields
        ensures PyEq(fields[k], fields[k])
      {
        EqualToItself(fields[k]);
      }
    case _ =>
  }

  lemma WriteStep(e: Expected, s: State, c: ClientFrame)
    requires s.ready == [c] && s.pending == map[]
    ensures Feed(e, s, Writes(e, c))
         == Some(s.(ready := [], pending := if c.Request? then map[c.id := MethodOf(c.call)] else map[]))
  {
    hide PyEq, Params, MethodName;
    EqualToItself(Wire(e, c));
    assert [c][1..] == [];
    assert c.Request? ==> map[][c.id := MethodOf(c.call)] == map[c.id := MethodOf(c.call)];
  }

  lemma AnswerStep(e: Expected, s: State, id: int, kind: Method, result: Json)
    requires s.pending == map[id := kind] && result.Obj?
    ensures Feed(e, s, Answers(id, result)) == Respond(e, s.(pending := map[]), kind, result)
  {
    hide Respond;
    assert s.pending - {id} == map[];
  }

  lemma Greets(e: Expected)
    requires e.codexHome != ""
    ensures Feed(e, Start().(ready := [], pending := map[1 := Initialize]), Answers(1, Greeting(e))) == Some(Greeted())
  {
    hide Feed;
    AnswerStep(e, Start().(ready := [], pending := map[1 := Initialize]), 1, Initialize, Greeting(e));
    assert [] + [Initialized] == [Initialized];
    assert InitializeResult(e, Start().(ready := [], pending := map[]), Greeting(e)) == Some(Greeted());
  }

  /** A notification goes by its topic; this says what is left to check about one. */
  lemma NoticeStep(e: Expected, s: State, topic: string, params: Json, frame: Json, s': State)
    requires Get(frame, "method") == Some(Str(topic)) && Get(frame, "params") == Some(params) && params.Obj?
    requires Get(frame, "id").None?
    requires IdentityKey(params, "threadId") && IdentityKey(params, "turnId") && InStage(s, topic)
    requires Dispatch(e, s, topic, params, frame) == Some(s') && CheckScope(s')
    ensures Feed(e, s, Event(Server, frame)) == Some(s')
  {
    hide Dispatch, CheckScope, InStage, IdentityKey;
  }

  lemma Opens(e: Expected)
    ensures Feed(e, Greeted().(ready := []), Snapshot()) == Some(Opened())
  {
    var s, frame := Greeted().(ready := []), Snapshot().frame;
    hide Feed, RemoteStatus, TurnScoped, ThreadScoped;
    ScopedTopics();
    NotOfAThread();
    SnapshotOpens();
    NoticeStep(e, s, "remoteControl/status/changed", Remote(), frame, Opened());
  }

  lemma NotOfAThread()
    ensures !ThreadScoped("remoteControl/status/changed")
  {
    assert "thread/"[0] == 't' && "remoteControl/status/changed"[0] == 'r';
  }

  lemma SnapshotOpens()
    ensures RemoteStatus(Greeted().(ready := []), Snapshot().frame) == Some(Opened())
  {
    hide IsDisabledSnapshot;
    SnapshotIsDisabled();
    assert [] + [Request(2, CallModelList(None))] == [Request(2, CallModelList(None))];
  }

  lemma SnapshotIsDisabled()
    ensures IsDisabledSnapshot(Snapshot().frame)
  {
    assert "s"[1..] == "" && Utf8Length("s") == 1;
    assert IsServerName("s");
    assert IsCanonicalUuid(Uuid());
  }

  lemma Lists(e: Expected)
    ensures Feed(e, Opened().(ready := [], pending := map[2 := ModelList]), Answers(2, Page())) == Some(Listed())
  {
    hide Feed, ValidCatalog, OffersProfile;
    AnswerStep(e, Opened().(ready := [], pending := map[2 := ModelList]), 2, ModelList, Page());
    ProfileIsOffered();
    assert [] + [Model()] == [Model()];
    assert [] + [Request(3, CallThreadStart)] == [Request(3, CallThreadStart)];
    assert PageResult(Opened().(ready := []), Page()) == Some(Listed());
  }

  lemma ProfileIsOffered()
    ensures ValidCatalog([Model()]) && OffersProfile([Model()])
  {
    assert [Model()][..0] == [];
    assert ModelsNamed([Model()], "gpt-6.1-sol") == [Model()];
    assert HasText(Obj(map["reasoningEffort" := Str("medium")]), "reasoningEffort", "medium");
    assert HasText(Obj(map["id" := Str("priority")]), "id", "priority");
  }

  lemma Threads(e: Expected)
    ensures Feed(e, Listed().(ready := [], pending := map[3 := ThreadStart]), Answers(3, Thread(e))) == Some(Threaded())
  {
    hide Feed;
    AnswerStep(e, Listed().(ready := [], pending := map[3 := ThreadStart]), 3, ThreadStart, Thread(e));
    assert [] + [Request(4, CallTurnStart("t"))] == [Request(4, CallTurnStart("t"))];
    assert ThreadResult(e, Listed().(ready := []), Thread(e)) == Some(Threaded());
  }

  lemma Starts(e: Expected)
    ensures Feed(e, Threaded().(ready := [], pending := map[4 := TurnStart]), Answers(4, Begun())) == Some(Started())
  {
    hide Feed;
    AnswerStep(e, Threaded().(ready := [], pending := map[4 := TurnStart]), 4, TurnStart, Begun());
  }

  lemma CompletesItem(e: Expected)
    ensures Feed(e, Started(), Tells("item/completed", CompletedItem())) == Some(Answered())
  {
    var frame := Tells("item/completed", CompletedItem()).frame;
    hide Feed, TurnScoped, ThreadScoped, Information;
    ScopedTopics();
    ItemIsInformation(e);
    NoticeStep(e, Started(), "item/completed", CompletedItem(), frame, Answered());
  }

  lemma ItemIsInformation(e: Expected)
    ensures Information(e, Started(), "item/completed", CompletedItem()) == Some(Answered())
  {
    hide TurnScoped, PyEq, CompleteItem;
    assert [] + [Both()] == [Both()];
    ItemIsComplete();
  }

  lemma ItemIsComplete()
    ensures IsItem(Item()) && CompleteItem(Started().(scopes := [Both()]), Item()) == Some(Answered())
  {
    assert [] + [Item()] == [Item()] && {} + {"a"} == {"a"};
  }

  lemma CompletesTurn(e: Expected)
    ensures Feed(e, Answered(), Tells("turn/completed", CompletedTurn())) == Some(Done())
  {
    var frame := Tells("turn/completed", CompletedTurn()).frame;
    hide Feed, TurnScoped, ThreadScoped, TurnEvent;
    ScopedTopics();
    TurnIsOver();
    NoticeStep(e, Answered(), "turn/completed", CompletedTurn(), frame, Done());
  }

  lemma TurnIsOver()
    ensures TurnEvent(Answered(), "turn/completed", CompletedTurn()) == Some(Done())
  {
    assert [Both()] + [Both()] == [Both(), Both()];
  }

  lemma Behaves(e: Expected)
    requires e.codexHome != ""
    ensures Behaviour(e, Events(e), States())
  {
    hide Feed, Wire, MethodName, Params;
    WriteStep(e, Start(), Request(1, CallInitialize));
    Greets(e);
    WriteStep(e, Greeted(), Initialized);
    Opens(e);
    WriteStep(e, Opened(), Request(2, CallModelList(None)));
    Lists(e);
    WriteStep(e, Listed(), Request(3, CallThreadStart));
    Threads(e);
    WriteStep(e, Threaded(), Request(4, CallTurnStart("t")));
    Starts(e);
    CompletesItem(e);
    CompletesTurn(e);
  }

  lemma Finishes(e: Expected, parseText: string -> Option<Json>)
    requires IsVersion2(parseText("x"))
    ensures Finish(e, parseText, Done()) == Some(Verdict("t", "u", "x"))
  {
    hide FinalAnswer;
    ItemIsTheAnswer();
  }

  lemma ItemIsTheAnswer()
    ensures FinalAnswer([Item()]) == Some(Item())
  {
    var answers := [Item()];
    assert answers[..0] == [];
    assert WithPhase(answers, Some("final_answer")) == [] && WithPhase(answers, None) == answers;
  }

  // ---------------------------------------------------------------- its recording

  /** Each record is a line of two bytes, the first of which says which frame it is. */
  function Recorded(evs: seq<Event>): seq<Record>
    requires |evs| <= 100
  {
    seq(|evs|, i requires 0 <= i < |evs| => Record(i + 1, evs[i].direction, [100 + i, NEWLINE]))
  }

  function ReadsIt(evs: seq<Event>): Codec {
    Codec(raw => true,
          raw => if |raw| == 2 && 100 <= raw[0] < 100 + |evs| then Some(evs[raw[0] - 100].frame) else None,
          text => Some(Obj(map["schema_version" := Int(2)])),
          frame => [], record => 0, header => true)
  }

  lemma ReadsWhatIsRecorded(evs: seq<Event>)
    requires |evs| <= 100
    ensures EventsOf(ReadsIt(evs), Recorded(evs)) == evs && ValidRecords(ReadsIt(evs), Recorded(evs))
  {
    var codec, records := ReadsIt(evs), Recorded(evs);
    forall i | 0 <= i < |evs|
      ensures ValidRecord(codec, records[i], i + 1) && codec.parse(records[i].raw) == Some(evs[i].frame)
    {
      assert records[i].raw == [100 + i, NEWLINE];
    }
  }

  lemma IsAccepted(e: Expected)
    requires e.codexHome != ""
    ensures |Events(e)| == 12
    ensures Replay(ReadsIt(Events(e)), e, Recorded(Events(e))) == Some(Verdict("t", "u", "x"))
  {
    hide Feed, Finish, Wire, Events, States;
    Length(e);
    ReadsWhatIsRecorded(Events(e));
    Behaves(e);
    BehaviourRuns(e, Events(e), States());
    LastState();
    Finishes(e, ReadsIt(Events(e)).parseText);
  }

  lemma Length(e: Expected)
    ensures |Events(e)| == 12
  {
  }

  lemma LastState()
    ensures States() != [] && Last(States()) == Done()
  {
  }

  // ---------------------------------------------------------------- when there is one

  lemma FeedNeedsHome(e: Expected, s: State, ev: Event)
    requires Feed(e, s, ev).Some? && Feed(e, s, ev).value.initializeComplete
    ensures s.initializeComplete || e.codexHome != ""
  {
    hide Wire, PyEq, Notify, ValidCatalog, OffersProfile, ResolvedSettings, CheckScope;
  }

  lemma {:induction false} RunNeedsHome(e: Expected, evs: seq<Event>)
    requires Run(e, evs).Some? && Run(e, evs).value.initializeComplete
    ensures e.codexHome != ""
  {
    hide Feed;
    var front := evs[..|evs| - 1];
    FeedNeedsHome(e, Run(e, front).value, evs[|evs| - 1]);
    if e.codexHome == "" {
      RunNeedsHome(e, front);
    }
  }

  /** Some recording is accepted exactly when the invocation context names a Codex home. */
  lemma SomeSessionIsAccepted(e: Expected)
    ensures (exists codec, records :: Replay(codec, e, records).Some?) <==> e.codexHome != ""
  {
    hide Feed, Run;
    if e.codexHome != "" {
      IsAccepted(e);
    }
    forall codec, records | Replay(codec, e, records).Some?
      ensures e.codexHome != ""
    {
      RunNeedsHome(e, EventsOf(codec, records));
    }
  }
}
