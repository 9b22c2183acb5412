/** What the responses of every accepted session have confirmed, spelled out on their fields. */
module Resolutions {
  import opened Wrappers
  import opened JsonValues
  import opened Protocol
  import opened Conversation
  import opened Verdicts
  import opened FrameRules

  ghost function ResultOf(response: Json): Json {
    if Has(response, "result") then At(response, "result") else Null
  }

  ghost function DataOf(response: Json): seq<Json> {
    if Has(ResultOf(response), "data") && At(ResultOf(response), "data").Arr? then At(ResultOf(response), "data").items
    else []
  }

  /** The models of the first n pages; response 0 is the greeting. */
  ghost function Joined(rs: seq<Json>, n: nat): seq<Json>
    requires n < |rs|
  {
    if n == 0 then [] else Joined(rs, n - 1) + DataOf(rs[n])
  }

  /**
   The greeting names the configured home; the pages together offer the wanted model, once, with its effort and its
   tier; the thread runs with exactly the configured settings; the turn was begun without an error.
   */
  ghost predicate Resolved(e: Expected, rs: seq<Json>) {
    && |rs| >= 4
    && GreetingOk(e, ResultOf(rs[0]))
    && ModelsOk(Joined(rs, |rs| - 3)) && HasTheProfile(Joined(rs, |rs| - 3))
    && ThreadOk(e, ResultOf(rs[|rs| - 2])) && TurnOk(ResultOf(rs[|rs| - 1]))
  }

  /** As far as the responses go. */
  ghost predicate Settled(e: Expected, rs: seq<Json>, s: State) {
    var p := s.pages;
    && |rs| <= p + 3 && (rs == [] ==> p == 0) && (rs != [] ==> p < |rs|)
    && (rs != [] ==> GreetingOk(e, ResultOf(rs[0])) && s.models == Joined(rs, p) && ModelsOk(s.models))
    && (rs == [] ==> s.models == [])
    && (rs != [] && p > 0 && CursorOf(rs[p]).Null? ==> HasTheProfile(s.models))
    && (|rs| > p + 1 ==> ThreadOk(e, ResultOf(rs[p + 1])))
    && (|rs| > p + 2 ==> TurnOk(ResultOf(rs[p + 2])))
  }

  lemma {:induction false} JoinedOfMore(rs: seq<Json>, frame: Json, n: nat)
    requires n < |rs|
    ensures Joined(rs + [frame], n) == Joined(rs, n)
  {
    if n > 0 {
      JoinedOfMore(rs, frame, n - 1);
    }
  }

  /** Which response an open request waits for. */
  lemma OpenKind(issued: seq<ClientFrame>, rs: seq<Json>, s: State, frame: Json, kind: Method)
    requires AnswersOpen(issued, rs, s, frame, kind)
    ensures match kind
      case Initialize => rs == [] && s.pages == 0
      case ModelList => |rs| == s.pages + 1
      case ThreadStart => |rs| == s.pages + 1
      case TurnStart => |rs| == s.pages + 2
  {
    hide Known, CursorOf, ThreadOf, TurnOf;
  }

  lemma SettledGreeting(e: Expected, s: State, frame: Json)
    requires s.pages == 0 && Settled(e, [], s) && Get(frame, "result").Some?
    requires InitializeResult(e, s, Get(frame, "result").value).Some?
    ensures Settled(e, [] + [frame], InitializeResult(e, s, Get(frame, "result").value).value)
  {
    hide GreetingOk, CursorOf;
    GreetingIsExact(e, s, Get(frame, "result").value);
    assert [] + [frame] == [frame];
  }

  lemma SettledPage(e: Expected, rs: seq<Json>, s: State, frame: Json)
    requires Settled(e, rs, s) && |rs| == s.pages + 1 && Get(frame, "result").Some?
    requires PageResult(s, Get(frame, "result").value).Some?
    ensures Settled(e, rs + [frame], PageResult(s, Get(frame, "result").value).value)
  {
    hide GreetingOk, ModelsOk, HasTheProfile, ThreadOk, TurnOk;
    PageIsExact(s, Get(frame, "result").value);
    JoinedOfMore(rs, frame, s.pages);
    assert (rs + [frame])[|rs|] == frame && (rs + [frame])[0] == rs[0];
  }

  lemma SettledThread(e: Expected, rs: seq<Json>, s: State, frame: Json)
    requires Settled(e, rs, s) && |rs| == s.pages + 1 && Get(frame, "result").Some?
    requires ThreadResult(e, s, Get(frame, "result").value).Some?
    ensures Settled(e, rs + [frame], ThreadResult(e, s, Get(frame, "result").value).value)
  {
    hide GreetingOk, ModelsOk, HasTheProfile, ThreadOk, TurnOk, CursorOf, Agree;
    ThreadIsExact(e, s, Get(frame, "result").value);
    JoinedOfMore(rs, frame, s.pages);
    assert forall i | 0 <= i < |rs| :: (rs + [frame])[i] == rs[i];
  }

  lemma SettledTurn(e: Expected, rs: seq<Json>, s: State, frame: Json)
    requires Settled(e, rs, s) && |rs| == s.pages + 2 && Get(frame, "result").Some?
    requires TurnResult(s, Get(frame, "result").value).Some?
    ensures Settled(e, rs + [frame], TurnResult(s, Get(frame, "result").value).value)
  {
    hide GreetingOk, ModelsOk, HasTheProfile, ThreadOk, TurnOk, CursorOf, Agree;
    TurnIsExact(s, Get(frame, "result").value);
    JoinedOfMore(rs, frame, s.pages);
    assert forall i | 0 <= i < |rs| :: (rs + [frame])[i] == rs[i];
  }

  lemma SettledDepends(e: Expected, rs: seq<Json>, s: State, s': State)
    requires Settled(e, rs, s) && s'.pages == s.pages && s'.models == s.models
    ensures Settled(e, rs, s')
  {
    hide GreetingOk, ModelsOk, HasTheProfile, ThreadOk, TurnOk, CursorOf, Joined;
  }

  lemma SettledResponse(e: Expected, frames: seq<Json>, rs: seq<Json>, s: State, issued: seq<ClientFrame>, frame: Json)
    requires Inv(e, frames, rs, s, issued) && Settled(e, rs, s) && FeedResponse(e, s, frame).Some?
    ensures Settled(e, rs + [frame], FeedResponse(e, s, frame).value)
  {
    hide Wire, PyEq, Layout, Slot, InitializeResult, PageResult, ThreadResult, TurnResult, Settled, Follows;
    var id := Get(frame, "id").value.n;
    OpenRequest(issued, |rs|, s, id);
    var s0 := s.(pending := map[]);
    LayoutDepends(issued, rs, s, s0);
    SettledDepends(e, rs, s, s0);
    var kind := s.pending[id];
    assert AnswersOpen(issued, rs, s0, frame, kind);
    OpenKind(issued, rs, s0, frame, kind);
    match kind
    case Initialize => SettledGreeting(e, s0, frame);
    case ModelList => SettledPage(e, rs, s0, frame);
    case ThreadStart => SettledThread(e, rs, s0, frame);
    case TurnStart => SettledTurn(e, rs, s0, frame);
  }

  lemma {:induction false} BehaviourSettles(e: Expected, evs: seq<Event>, states: seq<State>)
    requires Behaviour(e, evs, states)
    ensures Settled(e, Responses(evs), Last(states))
  {
    hide Settled, Layout, Slot, Wire, PyEq, FeedResponse, Notify, Follows;
    if evs == [] {
      assert Settled(e, [], Start()) by { NothingSettled(e); }
    } else {
      var front, ev := evs[..|evs| - 1], evs[|evs| - 1];
      BehaviourPrefix(e, evs, states);
      var s := states[|evs| - 1];
      BehaviourSettles(e, front, states[..|evs|]);
      if IsResponse(ev) {
        var issued := BehaviourInv(e, front, states[..|evs|]);
        SettledResponse(e, ClientFrames(front), Responses(front), s, issued, ev.frame);
        assert Responses(evs) == Responses(front) + [ev.frame];
      } else {
        assert Last(states).pages == s.pages && Last(states).models == s.models by { OthersTakeNoPage(e, s, ev); }
        SettledDepends(e, Responses(front), s, Last(states));
        assert Responses(evs) == Responses(front);
      }
    }
  }

  lemma NothingSettled(e: Expected)
    ensures Settled(e, [], Start())
  {
  }

  lemma OthersTakeNoPage(e: Expected, s: State, ev: Event)
    requires !IsResponse(ev) && Feed(e, s, ev).Some?
    ensures Feed(e, s, ev).value.pages == s.pages && Feed(e, s, ev).value.models == s.models
  {
    hide Wire, PyEq, Notify;
  }

  /** Every session that has its turn has confirmed all of it. */
  lemma SessionIsResolved(e: Expected, evs: seq<Event>, states: seq<State>)
    requires Behaviour(e, evs, states) && Last(states).turn.Some?
    ensures Resolved(e, Responses(evs))
  {
    hide Settled, Feed, Layout, Slot, Wire, PyEq, Follows, ClientFrames;
    BehaviourSettles(e, evs, states);
    CompleteCatalog(e, evs, states);
    var issued := BehaviourInv(e, evs, states);
    FinishedLayout(issued, Responses(evs), Last(states));
    AllSettled(e, Responses(evs), Last(states));
  }

  lemma AllSettled(e: Expected, rs: seq<Json>, s: State)
    requires Settled(e, rs, s) && |rs| == s.pages + 3 && s.pages >= 1 && CursorOf(rs[s.pages]).Null?
    ensures Resolved(e, rs)
  {
    hide GreetingOk, ModelsOk, HasTheProfile, ThreadOk, TurnOk, CursorOf;
  }

  // ---------------------------------------------------------------- the client's frames

  /** The n-th frame of the client: the greeting, its confirmation, the pages, the thread and the turn. */
  ghost function Sent(e: Expected, rs: seq<Json>, threadId: string, n: nat): Json
    requires |rs| >= 4 && n <= |rs|
  {
    if n == 0 then FrameRules.Greeting()
    else if n == 1 then Obj(map["method" := Str("initialized")])
    else if n == 2 then PageWanted(2, Null)
    else if n < |rs| - 1 then
      PageWanted(n, if Has(ResultOf(rs[n - 2]), "nextCursor") then At(ResultOf(rs[n - 2]), "nextCursor") else Null)
    else if n == |rs| - 1 then ThreadWanted(e, n)
    else TurnWanted(e, n, threadId)
  }

  ghost predicate SentAll(e: Expected, frames: seq<Json>, rs: seq<Json>, threadId: string) {
    && |rs| >= 4 && |frames| == |rs| + 1
    && forall n | 0 <= n < |frames| :: Counted(frames[n]) == Counted(Sent(e, rs, threadId, n))
  }

  lemma ScriptIsSent(e: Expected, rs: seq<Json>, threadId: string, n: nat)
    requires |rs| >= 4 && n <= |rs| && DistinctCursors(rs, |rs| - 4) && ThreadOf(rs[|rs| - 2]) == Str(threadId)
    ensures Dictated(e, Script(rs)[n]) == Sent(e, rs, threadId, n)
  {
    hide ThreadOf, Message;
    var k := |rs| - 3;
    if n == 0 {
      GreetingIsDictated(e);
    } else if 2 <= n < k + 2 {
      assert Script(rs)[n] == PageRequest(rs, n - 2);
      CursorIsRead(rs[n - 2]);
    }
  }

  lemma GreetingIsDictated(e: Expected)
    ensures Dictated(e, Request(1, CallInitialize)) == FrameRules.Greeting()
  {
  }

  lemma CursorIsRead(response: Json)
    ensures CursorOf(response)
         == if Has(ResultOf(response), "nextCursor") then At(ResultOf(response), "nextCursor") else Null
  {
  }

  lemma ClientSentAll(e: Expected, evs: seq<Event>, states: seq<State>)
    requires Behaviour(e, evs, states) && Last(states).turn.Some?
    ensures Last(states).thread.Some?
    ensures SentAll(e, ClientFrames(evs), Responses(evs), Last(states).thread.value)
  {
    hide Feed, Wire, PyEq, Dictated, Sent, Counted, Script, DistinctCursors, ClientFrames, Responses;
    CompleteScript(e, evs, states);
    CompleteCatalog(e, evs, states);
    var rs, frames := Responses(evs), ClientFrames(evs);
    forall n | 0 <= n < |frames|
      ensures Counted(frames[n]) == Counted(Sent(e, rs, Last(states).thread.value, n))
    {
      EqualityIsExact(frames[n], Wire(e, Script(rs)[n]));
      WireIsDictated(e, Script(rs)[n]);
      ScriptIsSent(e, rs, Last(states).thread.value, n);
    }
  }

  // ---------------------------------------------------------------- the notifications

  lemma EveryNoticeReads(e: Expected, evs: seq<Event>, states: seq<State>, n: nat)
    requires Behaviour(e, evs, states) && n < |evs| && IsNotice(evs[n])
    ensures NoticeReads(e, evs[n].frame)
  {
    hide Notify, NoticeReads, NoticeOk, Noted;
    assert Feed(e, states[n], evs[n]) == Some(states[n + 1]);
    NoticeIsExact(e, states[n], evs[n].frame);
    TakenReads(e, states[n], evs[n].frame);
  }

  ghost predicate IsSnapshot(ev: Event) {
    IsNotice(ev) && Says(ev.frame, "method", "remoteControl/status/changed")
  }

  ghost predicate IsItemOf(ev: Event, id: string) {
    && IsNotice(ev) && Says(ev.frame, "method", "item/completed") && Has(ev.frame, "params")
    && Has(At(ev.frame, "params"), "item") && Says(At(At(ev.frame, "params"), "item"), "id", id)
  }

  /** Whether there was a snapshot yet, and which items are complete. */
  ghost predicate SeenOnce(evs: seq<Event>, s: State) {
    && (s.snapshot.None? ==> forall j | 0 <= j < |evs| :: !IsSnapshot(evs[j]))
    && (s.snapshot.Some? ==> exists u | 0 <= u < |evs| :: OnlySnapshot(evs, u))
    && (forall j, id | 0 <= j < |evs| && IsItemOf(evs[j], id) :: id in s.completedItems)
    && (forall i, j, id | 0 <= i < j < |evs| && IsItemOf(evs[i], id) :: !IsItemOf(evs[j], id))
  }

  ghost predicate OnlySnapshot(evs: seq<Event>, u: nat) {
    u < |evs| && forall j | 0 <= j < |evs| :: IsSnapshot(evs[j]) <==> j == u
  }

  lemma OthersAreNotSeen(e: Expected, s: State, ev: Event)
    requires !IsNotice(ev) && Feed(e, s, ev).Some?
    ensures Feed(e, s, ev).value.snapshot == s.snapshot && Feed(e, s, ev).value.completedItems == s.completedItems
    ensures !IsSnapshot(ev) && forall id :: !IsItemOf(ev, id)
  {
    hide Wire, PyEq, ValidCatalog, OffersProfile, ResolvedSettings, CheckScope;
  }

  lemma NoticeIsSeen(e: Expected, s: State, ev: Event)
    requires IsNotice(ev) && NoticeOk(e, s, ev.frame)
    ensures var s' := Noted(s, ev.frame);
      && (if IsSnapshot(ev) then s.snapshot.None? && s'.snapshot.Some? else s'.snapshot == s.snapshot)
      && (forall id | IsItemOf(ev, id) :: id !in s.completedItems && id in s'.completedItems)
      && s.completedItems <= s'.completedItems
  {
    hide Agree, StageOk, SnapshotOk, AboutATurn, IsThePrompt, KindOk;
  }

  lemma {:induction false} BehaviourSees(e: Expected, evs: seq<Event>, states: seq<State>)
    requires Behaviour(e, evs, states)
    ensures SeenOnce(evs, Last(states))
  {
    hide IsSnapshot, IsItemOf, Notify, NoticeOk, Noted, FeedClient, FeedResponse;
    if evs != [] {
      var front, ev, s := evs[..|evs| - 1], evs[|evs| - 1], states[|evs| - 1];
      BehaviourPrefix(e, evs, states);
      BehaviourSees(e, front, states[..|evs|]);
      if IsNotice(ev) {
        NoticeIsExact(e, s, ev.frame);
        NoticeIsSeen(e, s, ev);
      } else {
        OthersAreNotSeen(e, s, ev);
      }
      SeenOneMore(front, ev, s, Last(states));
      assert evs == front + [ev];
    }
  }

  lemma SeenOneMore(evs: seq<Event>, ev: Event, s: State, s': State)
    requires SeenOnce(evs, s)
    requires if IsSnapshot(ev) then s.snapshot.None? && s'.snapshot.Some? else s'.snapshot == s.snapshot
    requires forall id | IsItemOf(ev, id) :: id !in s.completedItems && id in s'.completedItems
    requires s.completedItems <= s'.completedItems
    ensures SeenOnce(evs + [ev], s')
  {
    hide IsSnapshot, IsItemOf;
    var more := evs + [ev];
    assert more[|evs|] == ev && forall j | 0 <= j < |evs| :: more[j] == evs[j];
    if IsSnapshot(ev) {
      assert OnlySnapshot(more, |evs|);
    } else if s.snapshot.Some? {
      var u :| 0 <= u < |evs| && OnlySnapshot(evs, u);
      assert OnlySnapshot(more, u);
    }
  }

  // ---------------------------------------------------------------- all of it

  /** Everything that an accepted session has said, with v its verdict and i its completion. */
  ghost predicate Confirmed(e: Expected, parseText: string -> Option<Json>, evs: seq<Event>, v: Verdict, i: nat) {
    && Resolved(e, Responses(evs)) && SentAll(e, ClientFrames(evs), Responses(evs), v.threadId)
    && (forall n | 0 <= n < |evs| && IsNotice(evs[n]) :: NoticeReads(e, evs[n].frame))
    && (exists u: nat :: OnlySnapshot(evs, u))
    && (forall m, n, id | 0 <= m < n < |evs| && IsItemOf(evs[m], id) :: !IsItemOf(evs[n], id))
    && i < |evs| && RepetitionsOk(e, Collect(evs, AgentMessage), Param(evs[i].frame, "turn"))
    && parseText(v.responseText).Some?
    && Has(parseText(v.responseText).value, "schema_version")
    && At(parseText(v.responseText).value, "schema_version") == Int(2)
  }

  lemma FinishedIsConfirmed(e: Expected, parseText: string -> Option<Json>, evs: seq<Event>, states: seq<State>, i: nat)
    requires Behaviour(e, evs, states) && Finish(e, parseText, Last(states)).Some?
    requires i < |evs| && IsCompletion(evs[i])
    ensures Confirmed(e, parseText, evs, Finish(e, parseText, Last(states)).value, i)
  {
    hide Feed, Finish, Resolved, SentAll, NoticeReads, IsNotice, IsItemOf, IsSnapshot, RepetitionsOk, FinalAnswer,
      Collect;
    hide Agree, Responses, ClientFrames;
    FinishIsExact(e, parseText, Last(states));
    SessionIsResolved(e, evs, states);
    ClientSentAll(e, evs, states);
    forall n | 0 <= n < |evs| && IsNotice(evs[n])
      ensures NoticeReads(e, evs[n].frame)
    {
      EveryNoticeReads(e, evs, states, n);
    }
    BehaviourSees(e, evs, states);
    SessionKeeps(e, evs, states);
    CompletionIsKept(evs, i, Last(states).completed);
  }

  lemma CompletionIsKept(evs: seq<Event>, i: nat, turns: seq<Json>)
    requires i < |evs| && IsCompletion(evs[i]) && turns == Collect(evs, CompletedTurn) && |turns| == 1
    ensures Param(evs[i].frame, "turn") == turns[0]
  {
    hide Collect;
    Collected(evs, CompletedTurn, i);
  }
}
