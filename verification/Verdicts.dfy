/**
 What a finished session proves about the frames it saw, and why finishing is final: later frames that
 are still accepted cannot change the verdict.
 */
module Verdicts {
  import opened Wrappers
  import opened JsonValues
  import opened Protocol
  import opened Conversation

  // ---------------------------------------------------------------- what a notification reports

  function Topic(frame: Json): string {
    var topic := Get(frame, "method");
    if IsStr(topic) then topic.value.s else ""
  }

  function Param(frame: Json, key: string): Json {
    OrNull(Get(OrNull(Get(frame, "params")), key))
  }

  predicate IsTurnEvent(topic: string) {
    topic == "turn/started" || topic == "turn/completed"
  }

  /** The thread and turn a notification speaks for. */
  function ScopeOf(frame: Json): Option<Scope> {
    var topic := Topic(frame);
    if IsTurnEvent(topic) then
      Some(Scope(TextOf(Some(Param(frame, "threadId"))), TextOf(Get(Param(frame, "turn"), "id"))))
    else if topic != "thread/started" && topic != "remoteControl/status/changed" then
      Some(Scope(TextOf(Some(Param(frame, "threadId"))), TextOf(Some(Param(frame, "turnId")))))
    else
      None
  }

  function StartedThread(frame: Json): Option<Json> {
    if Topic(frame) == "thread/started" then Get(Param(frame, "thread"), "id") else None
  }

  function CompletedTurn(frame: Json): Option<Json> {
    if Topic(frame) == "turn/completed" then Some(Param(frame, "turn")) else None
  }

  function AgentMessage(frame: Json): Option<Json> {
    if Topic(frame) == "item/completed" && HasText(Param(frame, "item"), "type", "agentMessage")
    then Some(Param(frame, "item")) else None
  }

  /** What the notifications of a frame sequence report, in order. */
  function Collect<T>(evs: seq<Event>, report: Json -> Option<T>): seq<T> {
    if evs == [] then []
    else
      var ev := evs[|evs| - 1];
      Collect(evs[..|evs| - 1], report)
      + if IsNotice(ev) && report(ev.frame).Some? then [report(ev.frame).value] else []
  }

  lemma {:induction false} Collected<T>(evs: seq<Event>, report: Json -> Option<T>, i: nat)
    requires i < |evs| && IsNotice(evs[i]) && report(evs[i].frame).Some?
    ensures report(evs[i].frame).value in Collect(evs, report)
  {
    if i < |evs| - 1 {
      Collected(evs[..|evs| - 1], report, i);
    }
  }

  // ---------------------------------------------------------------- the session keeps exactly that

  ghost predicate Keeps(s: State, scopes: seq<Scope>, threads: seq<Json>, turns: seq<Json>, answers: seq<Json>) {
    s.scopes == scopes && s.threadEvents == threads && s.completed == turns && s.answers == answers
  }

  function ToSeq<T>(o: Option<T>): seq<T> {
    if o.Some? then [o.value] else []
  }

  lemma ScopedTopics()
    ensures TurnScoped("turn/started") && TurnScoped("turn/completed")
    ensures TurnScoped("item/started") && TurnScoped("item/completed")
    ensures !TurnScoped("thread/started") && !TurnScoped("remoteControl/status/changed")
  {
    assert "turn/started"[..5] == "turn/";
    assert "turn/completed"[..5] == "turn/";
    assert "item/started"[..5] == "item/";
    assert "item/completed"[..5] == "item/";
    assert "thread/started"[0] == 't' && "thread/started"[1] == 'h' && "turn/"[1] == 'u' && "item/"[0] == 'i';
    assert "remoteControl/status/changed"[0] == 'r' && "turn/"[0] == 't';
  }

  lemma TurnEventKeeps(s: State, frame: Json, params: Json)
    requires Get(frame, "params") == Some(params) && IsTurnEvent(Topic(frame))
    requires TurnEvent(s, Topic(frame), params).Some?
    ensures Reports(s, frame, TurnEvent(s, Topic(frame), params).value)
  {
  }

  lemma InformationKeeps(e: Expected, s: State, frame: Json, params: Json)
    requires Get(frame, "params") == Some(params)
    requires !IsTurnEvent(Topic(frame))
    requires Topic(frame) != "thread/started" && Topic(frame) != "remoteControl/status/changed"
    requires Information(e, s, Topic(frame), params).Some?
    ensures Reports(s, frame, Information(e, s, Topic(frame), params).value)
  {
    hide TurnScoped;
    hide PyEq;
    hide Input;
  }

  /** The state records what the frame reports and nothing else of the kind. */
  ghost predicate Reports(s: State, frame: Json, s': State) {
    Keeps(s', s.scopes + ToSeq(ScopeOf(frame)), s.threadEvents + ToSeq(StartedThread(frame)),
          s.completed + ToSeq(CompletedTurn(frame)), s.answers + ToSeq(AgentMessage(frame)))
  }

  lemma NoticeReports(e: Expected, s: State, frame: Json)
    requires Notify(e, s, frame).Some?
    ensures Reports(s, frame, Notify(e, s, frame).value)
  {
    hide CheckScope;
    hide IsDisabledSnapshot;
    hide InStage;
    hide TurnEvent;
    hide Information;
    var params := Get(frame, "params").value;
    if IsTurnEvent(Topic(frame)) {
      TurnEventKeeps(s, frame, params);
    } else if Topic(frame) != "thread/started" && Topic(frame) != "remoteControl/status/changed" {
      InformationKeeps(e, s, frame, params);
    }
  }

  lemma {:induction false} SessionKeeps(e: Expected, evs: seq<Event>, states: seq<State>)
    requires Behaviour(e, evs, states)
    ensures Keeps(Last(states), Collect(evs, ScopeOf), Collect(evs, StartedThread),
                  Collect(evs, CompletedTurn), Collect(evs, AgentMessage))
  {
    hide Notify;
    hide FeedClient;
    hide FeedResponse;
    if evs != [] {
      var ev := evs[|evs| - 1];
      BehaviourPrefix(e, evs, states);
      SessionKeeps(e, evs[..|evs| - 1], states[..|evs|]);
      var s := Last(states[..|evs|]);
      if ev.direction == Client {
        ClientReports(e, s, ev.frame);
      } else if IsResponse(ev) {
        ResponseReports(e, s, ev.frame);
      } else {
        NoticeReports(e, s, ev.frame);
      }
    }
  }

  lemma ClientReports(e: Expected, s: State, frame: Json)
    requires FeedClient(e, s, frame).Some?
    ensures Keeps(FeedClient(e, s, frame).value, s.scopes, s.threadEvents, s.completed, s.answers)
  {
    hide PyEq;
  }

  lemma ResponseReports(e: Expected, s: State, frame: Json)
    requires FeedResponse(e, s, frame).Some?
    ensures Keeps(FeedResponse(e, s, frame).value, s.scopes, s.threadEvents, s.completed, s.answers)
  {
    hide ResolvedSettings;
    hide CheckScope;
    hide ValidCatalog;
    hide OffersProfile;
  }

  // ---------------------------------------------------------------- one thread, one turn, one completion

  lemma {:induction false} AlwaysInScope(e: Expected, evs: seq<Event>, states: seq<State>)
    requires Behaviour(e, evs, states)
    ensures CheckScope(Last(states))
  {
    hide Dispatch;
    hide InStage;
    hide FeedClient;
    hide FeedResponse;
    if evs != [] {
      var ev := evs[|evs| - 1];
      BehaviourPrefix(e, evs, states);
      AlwaysInScope(e, evs[..|evs| - 1], states[..|evs|]);
      var s := Last(states[..|evs|]);
      if ev.direction == Client {
        ClientInScope(e, s, ev.frame);
      } else if IsResponse(ev) {
        ResponseInScope(e, s, ev.frame);
      }
    }
  }

  lemma ClientInScope(e: Expected, s: State, frame: Json)
    requires FeedClient(e, s, frame).Some? && CheckScope(s)
    ensures CheckScope(FeedClient(e, s, frame).value)
  {
    hide PyEq;
    hide Wire;
  }

  /** Only the identities and what was seen of them matter. */
  ghost predicate SameScopes(s: State, s': State) {
    s'.thread == s.thread && s'.turn == s.turn && s'.threadEvents == s.threadEvents && s'.scopes == s.scopes
  }

  lemma ScopeDepends(s: State, s': State)
    requires CheckScope(s) && SameScopes(s, s')
    ensures CheckScope(s')
  {
  }

  lemma InitializeInScope(e: Expected, s: State, result: Json)
    requires InitializeResult(e, s, result).Some?
    ensures SameScopes(s, InitializeResult(e, s, result).value)
  {
  }

  lemma PageInScope(s: State, result: Json)
    requires PageResult(s, result).Some?
    ensures SameScopes(s, PageResult(s, result).value)
  {
    hide ValidCatalog, OffersProfile;
  }

  lemma ThreadInScope(e: Expected, s: State, result: Json)
    requires ThreadResult(e, s, result).Some?
    ensures CheckScope(ThreadResult(e, s, result).value)
  {
    hide ResolvedSettings, CheckScope;
    var s' := ThreadResult(e, s, result).value;
    var s0 := s'.(ready := s.ready, nextId := s.nextId);
    assert CheckScope(s0);
    ScopeDepends(s0, s');
  }

  lemma TurnInScope(s: State, result: Json)
    requires TurnResult(s, result).Some?
    ensures CheckScope(TurnResult(s, result).value)
  {
    hide CheckScope;
  }

  lemma ResponseInScope(e: Expected, s: State, frame: Json)
    requires FeedResponse(e, s, frame).Some? && CheckScope(s)
    ensures CheckScope(FeedResponse(e, s, frame).value)
  {
    hide InitializeResult, PageResult, ThreadResult, TurnResult, CheckScope;
    var id, result := Get(frame, "id").value.n, Get(frame, "result").value;
    var s0 := s.(pending := s.pending - {id});
    ScopeDepends(s, s0);
    match s.pending[id]
    case Initialize =>
      InitializeInScope(e, s0, result);
      ScopeDepends(s0, InitializeResult(e, s0, result).value);
    case ModelList =>
      PageInScope(s0, result);
      ScopeDepends(s0, PageResult(s0, result).value);
    case ThreadStart => ThreadInScope(e, s0, result);
    case TurnStart => TurnInScope(s0, result);
  }

  lemma ScopeComplete(e: Expected, s: State, frame: Json)
    requires Notify(e, s, frame).Some? && TurnScoped(Topic(frame))
    ensures ScopeOf(frame).Some? && ScopeOf(frame).value.threadId.Some? && ScopeOf(frame).value.turnId.Some?
  {
    hide CheckScope;
    hide IsDisabledSnapshot;
    hide InStage;
    hide CompleteItem;
    hide PyEq;
    hide TurnScoped;
    ScopedTopics();
  }

  /**
   Every notification an accepted session saw, early or late, spoke for the thread and the turn that the
   responses named; an item or turn notification named both.
   */
  lemma EveryNoticeInScope(e: Expected, evs: seq<Event>, states: seq<State>, i: nat)
    requires Behaviour(e, evs, states) && i < |evs| && IsNotice(evs[i])
    requires Last(states).thread.Some? && Last(states).turn.Some?
    ensures var s, frame := Last(states), evs[i].frame;
            && (StartedThread(frame).Some? ==> StartedThread(frame).value == Str(s.thread.value))
            && (ScopeOf(frame).Some? ==> ScopeOf(frame).value.threadId in {None, s.thread}
                                         && ScopeOf(frame).value.turnId in {None, s.turn})
            && (TurnScoped(Topic(frame)) ==> ScopeOf(frame) == Some(Scope(s.thread, s.turn)))
  {
    hide Notify;
    hide TurnScoped;
    AlwaysInScope(e, evs, states);
    SessionKeeps(e, evs, states);
    var frame := evs[i].frame;
    if StartedThread(frame).Some? {
      Collected(evs, StartedThread, i);
    }
    if ScopeOf(frame).Some? {
      Collected(evs, ScopeOf, i);
    }
    assert Feed(e, states[i], evs[i]) == Some(states[i + 1]);
    if TurnScoped(Topic(frame)) {
      ScopeComplete(e, states[i], frame);
    }
  }

  predicate IsCompletion(ev: Event) {
    IsNotice(ev) && CompletedTurn(ev.frame).Some?
  }

  /** Nothing about items or turns is accepted once a turn has completed. */
  lemma NothingAfterCompletion(e: Expected, evs: seq<Event>, states: seq<State>, i: nat, j: nat)
    requires Behaviour(e, evs, states) && i < j < |evs|
    requires IsCompletion(evs[i]) && IsNotice(evs[j])
    ensures !TurnScoped(Topic(evs[j].frame))
  {
    hide Feed, TurnScoped, IsNotice, Collect, SessionHolds;
    BehaviourUpTo(e, evs, states, j);
    assert evs[..j][i] == evs[i];
    CompletionIsHeld(e, evs[..j], states[..j + 1], i);
    HeldIsThere(states[..j + 1], states[j]);
    assert Feed(e, states[j], evs[j]) == Some(states[j + 1]);
    CompletedIsOver(e, states[j], evs[j]);
  }

  ghost predicate SessionHolds(states: seq<State>) {
    states != [] && Last(states).completed != []
  }

  lemma HeldIsThere(states: seq<State>, s: State)
    requires SessionHolds(states) && states[|states| - 1] == s
    ensures s.completed != []
  {
  }

  /** After a completion the session holds a completed turn. */
  lemma CompletionIsHeld(e: Expected, evs: seq<Event>, states: seq<State>, i: nat)
    requires Behaviour(e, evs, states) && i < |evs| && IsCompletion(evs[i])
    ensures SessionHolds(states)
  {
    hide Feed, IsNotice, Collect;
    SessionKeeps(e, evs, states);
    Collected(evs, CompletedTurn, i);
  }

  lemma CompletedIsOver(e: Expected, s: State, ev: Event)
    requires s.completed != [] && IsNotice(ev) && Feed(e, s, ev).Some?
    ensures !TurnScoped(Topic(ev.frame))
  {
    hide Dispatch, CheckScope, TurnScoped;
  }

  /** So an accepted session contains at most one completion; when there is one, the session holds its turn. */
  lemma OneCompletion(e: Expected, evs: seq<Event>, states: seq<State>, i: nat, j: nat)
    requires Behaviour(e, evs, states) && i < |evs| && j < |evs|
    requires IsCompletion(evs[i]) && IsCompletion(evs[j])
    ensures i == j && Last(states).completed == [CompletedTurn(evs[i].frame).value]
  {
    hide Feed, TurnScoped, IsNotice, Collect;
    CompletionIsScoped(evs[i]);
    CompletionIsScoped(evs[j]);
    if i < j {
      NothingAfterCompletion(e, evs, states, i, j);
    } else if j < i {
      NothingAfterCompletion(e, evs, states, j, i);
    }
    SessionKeeps(e, evs, states);
    AtMostOneCompletion(e, evs, states);
    Collected(evs, CompletedTurn, i);
  }

  lemma CompletionIsScoped(ev: Event)
    requires IsCompletion(ev)
    ensures IsNotice(ev) && TurnScoped(Topic(ev.frame))
  {
    hide TurnScoped;
    ScopedTopics();
  }

  lemma {:induction false} AtMostOneCompletion(e: Expected, evs: seq<Event>, states: seq<State>)
    requires Behaviour(e, evs, states)
    ensures |Collect(evs, CompletedTurn)| <= 1
  {
    hide Feed;
    if evs != [] {
      var last := |evs| - 1;
      BehaviourPrefix(e, evs, states);
      AtMostOneCompletion(e, evs[..last], states[..|evs|]);
      if IsCompletion(evs[last]) {
        SessionKeeps(e, evs[..last], states[..|evs|]);
        NoEarlierCompletion(e, Last(states[..|evs|]), evs[last]);
      }
    }
  }

  lemma NoEarlierCompletion(e: Expected, s: State, ev: Event)
    requires IsCompletion(ev) && Feed(e, s, ev).Some?
    ensures s.completed == []
  {
    hide Dispatch;
    hide CheckScope;
    hide TurnScoped;
    ScopedTopics();
  }

  lemma {:induction false} CollectedFrom<T>(evs: seq<Event>, report: Json -> Option<T>, x: T) returns (i: nat)
    requires x in Collect(evs, report)
    ensures i < |evs| && IsNotice(evs[i]) && report(evs[i].frame) == Some(x)
  {
    var last := |evs| - 1;
    if x in Collect(evs[..last], report) {
      i := CollectedFrom(evs[..last], report, x);
    } else {
      i := last;
    }
  }

  // ---------------------------------------------------------------- nothing about a turn before it is asked for

  lemma TurnAsked(e: Expected, frames: seq<Json>, rs: seq<Json>, s: State, issued: seq<ClientFrame>)
    requires Inv(e, frames, rs, s, issued)
    requires s.turn.Some? || Awaiting(s, TurnStart)
    ensures s.ready == [] && issued != [] && issued[|issued| - 1].Request? && issued[|issued| - 1].call.CallTurnStart?
  {
    hide Wire;
    hide PyEq;
    if s.turn.Some? {
      hide Layout;
      FinishedLayout(issued, rs, s);
      assert Script(rs)[|rs|].call.CallTurnStart?;
    } else {
      hide Layout;
      var id :| id in s.pending && s.pending[id] == TurnStart;
    }
  }

  /** No item or turn notification is accepted before the client has written the turn request. */
  lemma NothingBeforeTurnRequest(e: Expected, evs: seq<Event>, states: seq<State>, j: nat) returns (id: int, t: string)
    requires Behaviour(e, evs, states) && j < |evs|
    requires IsNotice(evs[j]) && TurnScoped(Topic(evs[j].frame))
    ensures var frames := ClientFrames(evs[..j]);
            frames != [] && PyEq(frames[|frames| - 1], Wire(e, Request(id, CallTurnStart(t))))
  {
    hide Wire;
    hide PyEq;
    hide Dispatch;
    hide CheckScope;
    hide Layout;
    hide Slot;
    hide TurnScoped;
    BehaviourUpTo(e, evs, states, j);
    var issued := BehaviourInv(e, evs[..j], states[..j + 1]);
    assert Feed(e, states[j], evs[j]) == Some(states[j + 1]);
    TurnAsked(e, ClientFrames(evs[..j]), Responses(evs[..j]), states[j], issued);
    var last := issued[|issued| - 1];
    id, t := last.id, last.call.threadId;
  }

  // ---------------------------------------------------------------- the final answer

  predicate IsFinal(answer: Json) {
    HasText(answer, "phase", "final_answer")
  }

  predicate IsUnphased(answer: Json) {
    IsAbsentOrNull(Get(answer, "phase"))
  }

  /** Answer i is beyond doubt: the only final one, or the only one at all and without a phase. */
  ghost predicate IsTheAnswer(answers: seq<Json>, i: nat) {
    && i < |answers|
    && if IsFinal(answers[i]) then forall j | 0 <= j < |answers| && j != i :: !IsFinal(answers[j])
       else |answers| == 1 && IsUnphased(answers[i])
  }

  lemma {:induction false} PhasedNone(answers: seq<Json>, phase: Option<string>)
    requires forall i | 0 <= i < |answers| :: !InPhase(answers[i], phase)
    ensures WithPhase(answers, phase) == []
  {
    if answers != [] {
      PhasedNone(answers[..|answers| - 1], phase);
    }
  }

  predicate InPhase(answer: Json, phase: Option<string>) {
    if phase.Some? then HasText(answer, "phase", phase.value) else IsUnphased(answer)
  }

  lemma {:induction false} PhasedOne(answers: seq<Json>, phase: Option<string>, i: nat)
    requires i < |answers| && InPhase(answers[i], phase)
    requires forall j | 0 <= j < |answers| && j != i :: !InPhase(answers[j], phase)
    ensures WithPhase(answers, phase) == [answers[i]]
  {
    var last := |answers| - 1;
    if i == last {
      PhasedNone(answers[..last], phase);
    } else {
      PhasedOne(answers[..last], phase, i);
    }
  }

  lemma {:induction false} PhasedWitness(answers: seq<Json>, phase: Option<string>) returns (i: nat)
    requires WithPhase(answers, phase) != []
    ensures i < |answers| && InPhase(answers[i], phase)
    ensures |WithPhase(answers, phase)| == 1 ==> forall j | 0 <= j < |answers| && j != i :: !InPhase(answers[j], phase)
  {
    var last := |answers| - 1;
    var front := answers[..last];
    if InPhase(answers[last], phase) {
      i := last;
      if |WithPhase(answers, phase)| == 1 {
        forall j | 0 <= j < last
          ensures !InPhase(answers[j], phase)
        {
          if InPhase(front[j], phase) {
            PhasedMember(front, phase, j);
          }
        }
      }
    } else {
      i := PhasedWitness(front, phase);
      assert forall j | 0 <= j < last :: front[j] == answers[j];
    }
  }

  lemma {:induction false} PhasedMember(answers: seq<Json>, phase: Option<string>, i: nat)
    requires i < |answers| && InPhase(answers[i], phase)
    ensures WithPhase(answers, phase) != []
  {
    var last := |answers| - 1;
    if i < last {
      PhasedMember(answers[..last], phase, i);
    }
  }

  /** The selection in `finish` picks an answer exactly when one answer is beyond doubt, and picks that one. */
  lemma FinalAnswerExact(answers: seq<Json>, a: Json)
    ensures FinalAnswer(answers) == Some(a) <==> exists i: nat :: IsTheAnswer(answers, i) && answers[i] == a
  {
    if FinalAnswer(answers) == Some(a) {
      var phase := if WithPhase(answers, Some("final_answer")) != [] then Some("final_answer") else None;
      var i := PhasedWitness(answers, phase);
      PhasedOne(answers, phase, i);
      assert IsTheAnswer(answers, i) && answers[i] == a;
    }
    if i: nat :| IsTheAnswer(answers, i) && answers[i] == a {
      if IsFinal(answers[i]) {
        PhasedOne(answers, Some("final_answer"), i);
      } else {
        PhasedNone(answers, Some("final_answer"));
        PhasedOne(answers, None, i);
      }
    }
  }

  lemma AnswerIndex(answers: seq<Json>, a: Json) returns (i: nat)
    requires FinalAnswer(answers) == Some(a)
    ensures IsTheAnswer(answers, i) && answers[i] == a
  {
    FinalAnswerExact(answers, a);
    i :| IsTheAnswer(answers, i) && answers[i] == a;
  }

  // ---------------------------------------------------------------- finishing is final

  lemma FinishNeeds(e: Expected, parseText: string -> Option<Json>, s: State)
    requires Finish(e, parseText, s).Some?
    ensures s.snapshot.Some? && s.ready == [] && s.pending == map[] && |s.completed| == 1
    ensures s.thread.Some? && s.turn.Some?
    ensures exists a :: FinalAnswer(s.answers) == Some(a)
                        && Get(a, "text") == Some(Str(Finish(e, parseText, s).value.responseText))
  {
    hide FinalAnswer;
    hide CompletedTurnAgrees;
    hide CheckScope;
    assert FinalAnswer(s.answers) == Some(FinalAnswer(s.answers).value);
  }

  /** After a turn has completed, an accepted notification records a scope or a thread event and nothing else. */
  lemma LateNotice(e: Expected, s: State, frame: Json)
    requires s.snapshot.Some? && s.completed != []
    requires Notify(e, s, frame).Some?
    ensures var s' := Notify(e, s, frame).value;
            s' == s.(scopes := s'.scopes, threadEvents := s'.threadEvents) && CheckScope(s')
  {
    hide CheckScope;
    hide TurnScoped;
    hide TurnEvent;
    hide CompleteItem;
    hide IsDisabledSnapshot;
    ScopedTopics();
  }

  /** A frame accepted after `finish` has succeeded leaves its result unchanged. */
  lemma FinishIsFinal(e: Expected, parseText: string -> Option<Json>, s: State, ev: Event)
    requires Finish(e, parseText, s).Some? && Feed(e, s, ev).Some?
    ensures Finish(e, parseText, Feed(e, s, ev).value) == Finish(e, parseText, s)
  {
    hide CheckScope;
    hide CompletedTurnAgrees;
    hide FinalAnswer;
    hide Notify;
    hide PyEq;
    LateNotice(e, s, ev.frame);
  }

  /** So once a session can finish, it can finish after every further accepted frame, with one verdict. */
  lemma {:induction false} VerdictStands(e: Expected, parseText: string -> Option<Json>, evs: seq<Event>,
                                         states: seq<State>, m: nat, n: nat)
    requires Behaviour(e, evs, states) && m <= n <= |evs|
    requires Finish(e, parseText, states[m]).Some?
    ensures Finish(e, parseText, states[n]) == Finish(e, parseText, states[m])
    decreases n
  {
    hide Feed;
    hide Finish;
    if m < n {
      VerdictStands(e, parseText, evs, states, m, n - 1);
      assert Feed(e, states[n - 1], evs[n - 1]) == Some(states[n - 1 + 1]);
      FinishIsFinal(e, parseText, states[n - 1], evs[n - 1]);
    }
  }

  /** The response text was sent by the server, in the one agent message that is beyond doubt the answer. */
  lemma ResponseTextWasSent(e: Expected, parseText: string -> Option<Json>, evs: seq<Event>, states: seq<State>)
      returns (i: nat)
    requires Behaviour(e, evs, states) && Finish(e, parseText, Last(states)).Some?
    ensures var answers := Collect(evs, AgentMessage);
            && IsTheAnswer(answers, i)
            && Get(answers[i], "text") == Some(Str(Finish(e, parseText, Last(states)).value.responseText))
  {
    hide Feed;
    hide Finish;
    hide FinalAnswer;
    hide IsTheAnswer;
    SessionKeeps(e, evs, states);
    FinishNeeds(e, parseText, Last(states));
    var s := Last(states);
    var a :| FinalAnswer(s.answers) == Some(a)
             && Get(a, "text") == Some(Str(Finish(e, parseText, s).value.responseText));
    i := AnswerIndex(s.answers, a);
  }

  /** A session that can finish has seen its one completion. */
  lemma FinishedHasCompletion(e: Expected, parseText: string -> Option<Json>, evs: seq<Event>, states: seq<State>)
      returns (i: nat)
    requires Behaviour(e, evs, states) && Finish(e, parseText, Last(states)).Some?
    ensures i < |evs| && IsCompletion(evs[i])
    ensures forall j | 0 <= j < |evs| && IsCompletion(evs[j]) :: j == i
  {
    hide Feed, Finish, IsNotice, Collect;
    FinishNeeds(e, parseText, Last(states));
    SessionKeeps(e, evs, states);
    i := CollectedFrom(evs, CompletedTurn, Last(states).completed[0]);
    forall j | 0 <= j < |evs| && IsCompletion(evs[j])
      ensures j == i
    {
      OneCompletion(e, evs, states, i, j);
    }
  }
}
