/**
 What the client writes in an accepted session is fixed by what the server answered: the order of the
 required frames, their ids, the cursor each page request carries, and that one request is open at a time.
 */
module Conversation {
  import opened Wrappers
  import opened JsonValues
  import opened Protocol

  // ---------------------------------------------------------------- projections of a frame sequence

  function ClientFrames(evs: seq<Event>): seq<Json> {
    if evs == [] then []
    else
      var ev := evs[|evs| - 1];
      ClientFrames(evs[..|evs| - 1]) + if ev.direction == Client then [ev.frame] else []
  }

  predicate IsResponse(ev: Event) {
    ev.direction == Server && Get(ev.frame, "id").Some?
  }

  predicate IsNotice(ev: Event) {
    ev.direction == Server && Get(ev.frame, "id").None?
  }

  function Responses(evs: seq<Event>): seq<Json> {
    if evs == [] then []
    else
      var ev := evs[|evs| - 1];
      Responses(evs[..|evs| - 1]) + if IsResponse(ev) then [ev.frame] else []
  }

  function Result(response: Json, key: string): Json {
    OrNull(Get(OrNull(Get(response, "result")), key))
  }

  function CursorOf(response: Json): Json {
    Result(response, "nextCursor")
  }

  function ThreadOf(response: Json): Json {
    OrNull(Get(Result(response, "thread"), "id"))
  }

  function TurnOf(response: Json): Json {
    OrNull(Get(Result(response, "turn"), "id"))
  }

  // ---------------------------------------------------------------- the script the responses determine

  /** Catalog request i: the first carries no cursor, each later one the cursor of the response before it. */
  function PageRequest(rs: seq<Json>, i: nat): ClientFrame
    requires i < |rs|
  {
    Request(i + 2, CallModelList(if i > 0 && CursorOf(rs[i]).Str? then Some(CursorOf(rs[i]).s) else None))
  }

  ghost predicate DistinctCursors(rs: seq<Json>, n: nat)
    requires n < |rs|
  {
    && (forall i | 1 <= i <= n :: CursorOf(rs[i]).Str? && CursorOf(rs[i]).s != "")
    && (forall i, j | 1 <= i < j <= n :: CursorOf(rs[i]) != CursorOf(rs[j]))
  }

  /** The whole script of a finished session, as a function of its responses alone. */
  function Script(rs: seq<Json>): seq<ClientFrame>
    requires |rs| >= 4
  {
    var k := |rs| - 3;
    [Request(1, CallInitialize), Initialized]
    + seq(k, i requires 0 <= i < k => PageRequest(rs, i))
    + [Request(k + 2, CallThreadStart),
       Request(k + 3, CallTurnStart(if ThreadOf(rs[k + 1]).Str? then ThreadOf(rs[k + 1]).s else ""))]
  }

  ghost predicate Answers(rs: seq<Json>) {
    forall j | 0 <= j < |rs| :: Get(rs[j], "id") == Some(Int(j + 1))
  }

  /** The client frame sequence is, up to Python's `==`, the beginning of the script. */
  ghost predicate Follows(e: Expected, frames: seq<Json>, script: seq<ClientFrame>) {
    |frames| <= |script| && forall i | 0 <= i < |frames| :: PyEq(frames[i], Wire(e, script[i]))
  }

  // ---------------------------------------------------------------- the invariant

  ghost predicate Bare(s: State) {
    s.snapshot.None? && s.pages == 0 && s.cursors == {} && s.thread.None? && s.turn.None?
  }

  ghost predicate Stage(issued: seq<ClientFrame>, rs: seq<Json>, s: State)
    requires |rs| > s.pages && |issued| > s.pages + 2
  {
    var p := s.pages;
    if |rs| == p + 1 then
      && |issued| == p + 3 && s.thread.None? && s.turn.None?
      && if issued[p + 2] == PageRequest(rs, p) then p < MAX_PAGES && Known(rs, s, p)
         else p >= 1 && issued[p + 2] == Request(p + 2, CallThreadStart) && CursorOf(rs[p]).Null? && Known(rs, s, p - 1)
    else
      && p >= 1 && Known(rs, s, p - 1) && CursorOf(rs[p]).Null? && s.thread.Some?
      && |issued| == p + 4 && issued[p + 2] == Request(p + 2, CallThreadStart)
      && ThreadOf(rs[p + 1]) == Str(s.thread.value)
      && issued[p + 3] == Request(p + 3, CallTurnStart(s.thread.value))
      && if |rs| == p + 2 then s.turn.None? else |rs| == p + 3 && s.turn.Some? && TurnOf(rs[p + 2]) == Str(s.turn.value)
  }

  ghost predicate Known(rs: seq<Json>, s: State, n: nat)
    requires n < |rs|
  {
    DistinctCursors(rs, n) && forall i | 1 <= i <= n :: CursorOf(rs[i]).s in s.cursors
  }

  ghost predicate Layout(issued: seq<ClientFrame>, rs: seq<Json>, s: State) {
    && Answers(rs)
    && |issued| >= 1 && issued[0] == Request(1, CallInitialize)
    && (|issued| >= 2 ==> issued[1] == Initialized)
    && s.nextId == (if |issued| == 1 then 2 else |issued|)
    && if !s.initializeComplete then |issued| == 1 && rs == [] && Bare(s)
       else if s.snapshot.None? then |issued| == 2 && |rs| == 1 && Bare(s)
       else
         && |rs| > s.pages && |issued| > s.pages + 2 && s.pages <= MAX_PAGES
         && (forall i | 0 <= i < s.pages :: issued[i + 2] == PageRequest(rs, i))
         && Stage(issued, rs, s)
  }

  /** The one open request is queued, or written and unanswered, or there is none. */
  ghost predicate Slot(issued: seq<ClientFrame>, answered: nat, s: State) {
    && |s.ready| <= |issued| && s.ready == issued[|issued| - |s.ready|..]
    && (forall i | 0 <= i < |s.ready| - 1 :: s.ready[i] == Initialized)
    && if s.nextId == answered + 1 then s.pending == map[] && forall i | 0 <= i < |s.ready| :: s.ready[i] == Initialized
       else
         && s.nextId == answered + 2 && issued != []
         && var last := issued[|issued| - 1];
         && last.Request? && last.id == s.nextId - 1
         && if s.ready != [] then s.pending == map[] else s.pending == map[last.id := MethodOf(last.call)]
  }

  ghost predicate Inv(e: Expected, frames: seq<Json>, rs: seq<Json>, s: State, issued: seq<ClientFrame>) {
    && Layout(issued, rs, s)
    && Slot(issued, |rs|, s)
    && |frames| + |s.ready| == |issued|
    && Follows(e, frames, issued)
  }

  // ---------------------------------------------------------------- one step keeps it

  /** The fields that only a response or the first page request may change. */
  ghost predicate SameProgress(s: State, s': State) {
    && s'.nextId == s.nextId && s'.initializeComplete == s.initializeComplete && s'.snapshot == s.snapshot
    && s'.pages == s.pages && s'.cursors == s.cursors && s'.thread == s.thread && s'.turn == s.turn
  }

  lemma SlotAfterWrite(issued: seq<ClientFrame>, answered: nat, s: State, s': State)
    requires Slot(issued, answered, s) && s.ready != []
    requires SameProgress(s, s') && s'.ready == s.ready[1..]
    requires s'.pending == match s.ready[0]
                           case Request(id, call) => s.pending[id := MethodOf(call)]
                           case Initialized => s.pending
    ensures Slot(issued, answered, s')
    ensures s.ready[0] == issued[|issued| - |s.ready|]
  {
  }

  lemma LayoutDepends(issued: seq<ClientFrame>, rs: seq<Json>, s: State, s': State)
    requires Layout(issued, rs, s) && SameProgress(s, s')
    ensures Layout(issued, rs, s')
  {
  }

  lemma ClientStep(e: Expected, frames: seq<Json>, rs: seq<Json>, s: State, issued: seq<ClientFrame>, frame: Json)
    requires Inv(e, frames, rs, s, issued)
    requires FeedClient(e, s, frame).Some?
    ensures Inv(e, frames + [frame], rs, FeedClient(e, s, frame).value, issued)
  {
    hide Wire;
    hide PyEq;
    hide Layout;
    var s' := FeedClient(e, s, frame).value;
    SlotAfterWrite(issued, |rs|, s, s');
    LayoutDepends(issued, rs, s, s');
  }

  lemma NoticeStep(e: Expected, frames: seq<Json>, rs: seq<Json>, s: State, issued: seq<ClientFrame>, frame: Json)
      returns (issued': seq<ClientFrame>)
    requires Inv(e, frames, rs, s, issued)
    requires Notify(e, s, frame).Some?
    ensures Inv(e, frames, rs, Notify(e, s, frame).value, issued')
    ensures if SameDialogue(s, Notify(e, s, frame).value) then issued' == issued
            else OpensCatalog(s, Notify(e, s, frame).value)
                 && issued' == issued + [Request(s.nextId, CallModelList(None))]
  {
    hide Wire;
    hide PyEq;
    hide Notify;
    var s' := Notify(e, s, frame).value;
    if SameDialogue(s, s') {
      issued' := issued;
      LayoutDepends(issued, rs, s, s');
    } else {
      issued' := issued + [Request(s.nextId, CallModelList(None))];
      OpenCatalog(issued, rs, s, s');
    }
  }

  lemma OpenCatalog(issued: seq<ClientFrame>, rs: seq<Json>, s: State, s': State)
    requires Layout(issued, rs, s) && Slot(issued, |rs|, s)
    requires OpensCatalog(s, s')
    ensures Layout(issued + [Request(s.nextId, CallModelList(None))], rs, s')
    ensures Slot(issued + [Request(s.nextId, CallModelList(None))], |rs|, s')
  {
  }

  /** A response can only answer the open request, so nothing is queued and its id is the next in turn. */
  lemma OpenRequest(issued: seq<ClientFrame>, answered: nat, s: State, id: int)
    requires Slot(issued, answered, s) && id in s.pending
    ensures s.ready == [] && id == answered + 1 == s.nextId - 1 && s.pending - {id} == map[]
    ensures issued != [] && issued[|issued| - 1].Request? && s.pending[id] == MethodOf(issued[|issued| - 1].call)
  {
  }

  /** The state after a response: the open request is closed and the frames it calls for are queued. */
  ghost predicate Extends(issued: seq<ClientFrame>, rs: seq<Json>, s': State, frame: Json) {
    Layout(issued + s'.ready, rs + [frame], s') && Slot(issued + s'.ready, |rs| + 1, s')
  }

  /** What the four response lemmas share about the state before and the frame. */
  ghost predicate AnswersOpen(issued: seq<ClientFrame>, rs: seq<Json>, s: State, frame: Json, kind: Method) {
    && Layout(issued, rs, s)
    && s.ready == [] && s.pending == map[] && s.nextId == |rs| + 2
    && issued[|issued| - 1].Request? && MethodOf(issued[|issued| - 1].call) == kind
    && Get(frame, "id") == Some(Int(|rs| + 1))
    && Get(frame, "result").Some?
  }

  lemma EarlierPagesStand(rs: seq<Json>, s: State, s': State, frame: Json, n: nat)
    requires n < |rs| && Known(rs, s, n) && s.cursors <= s'.cursors
    ensures Known(rs + [frame], s', n)
    ensures forall i | 0 <= i < |rs| :: PageRequest(rs + [frame], i) == PageRequest(rs, i)
  {
  }

  lemma AnswerInitialize(e: Expected, issued: seq<ClientFrame>, rs: seq<Json>, s: State, frame: Json)
    requires AnswersOpen(issued, rs, s, frame, Initialize)
    requires InitializeResult(e, s, Get(frame, "result").value).Some?
    ensures Extends(issued, rs, InitializeResult(e, s, Get(frame, "result").value).value, frame)
  {
  }

  lemma AnswerPage(issued: seq<ClientFrame>, rs: seq<Json>, s: State, frame: Json)
    requires AnswersOpen(issued, rs, s, frame, ModelList)
    requires PageResult(s, Get(frame, "result").value).Some?
    ensures Extends(issued, rs, PageResult(s, Get(frame, "result").value).value, frame)
  {
    hide ValidCatalog;
    hide OffersProfile;
    hide Layout;
    hide Slot;
    var s' := PageResult(s, Get(frame, "result").value).value;
    assert CursorOf(frame) == Get(Get(frame, "result").value, "nextCursor").value;
    if CursorOf(frame).Null? {
      LastPage(issued, rs, s, frame, s');
    } else {
      NextPage(issued, rs, s, frame, s');
    }
  }

  lemma LastPage(issued: seq<ClientFrame>, rs: seq<Json>, s: State, frame: Json, s': State)
    requires AnswersOpen(issued, rs, s, frame, ModelList) && CursorOf(frame).Null? && s.pages < MAX_PAGES
    requires s' == Enqueue(s.(pages := s.pages + 1, models := s'.models), CallThreadStart)
    ensures Extends(issued, rs, s', frame)
  {
    hide CursorOf, ThreadOf, TurnOf, Known;
    var rs' := rs + [frame];
    var issued' := issued + s'.ready;
    EarlierPagesStand(rs, s, s', frame, s.pages);
    assert issued'[|issued'| - |s'.ready|..] == s'.ready;
    assert rs'[|rs|] == frame;
  }

  lemma NextPage(issued: seq<ClientFrame>, rs: seq<Json>, s: State, frame: Json, s': State)
    requires AnswersOpen(issued, rs, s, frame, ModelList) && s.pages + 1 < MAX_PAGES
    requires CursorOf(frame).Str? && CursorOf(frame).s != "" && CursorOf(frame).s !in s.cursors
    requires s' == Enqueue(s.(pages := s.pages + 1, models := s'.models, cursors := s.cursors + {CursorOf(frame).s}),
                           CallModelList(Some(CursorOf(frame).s)))
    ensures Extends(issued, rs, s', frame)
  {
    hide CursorOf, ThreadOf, TurnOf;
    var rs' := rs + [frame];
    var issued' := issued + s'.ready;
    EarlierPagesStand(rs, s, s', frame, s.pages);
    assert rs'[|rs|] == frame;
    assert Known(rs', s', s.pages + 1);
    assert issued'[|issued'| - |s'.ready|..] == s'.ready;
    assert forall i | 0 <= i < s.pages + 1 :: issued'[i + 2] == PageRequest(rs', i);
  }

  lemma ThreadNamed(e: Expected, s: State, frame: Json)
    requires s.ready == [] && Get(frame, "result").Some?
    requires ThreadResult(e, s, Get(frame, "result").value).Some?
    ensures var s' := ThreadResult(e, s, Get(frame, "result").value).value;
      && s'.thread.Some? && ThreadOf(frame) == Str(s'.thread.value)
      && s' == s.(thread := s'.thread, nextId := s.nextId + 1,
                  ready := [Request(s.nextId, CallTurnStart(s'.thread.value))])
  {
    hide ResolvedSettings;
    hide CheckScope;
  }

  lemma AnswerThread(e: Expected, issued: seq<ClientFrame>, rs: seq<Json>, s: State, frame: Json)
    requires AnswersOpen(issued, rs, s, frame, ThreadStart)
    requires ThreadResult(e, s, Get(frame, "result").value).Some?
    ensures Extends(issued, rs, ThreadResult(e, s, Get(frame, "result").value).value, frame)
  {
    hide ThreadResult, Enqueue, Get;
    var s' := ThreadResult(e, s, Get(frame, "result").value).value;
    ThreadNamed(e, s, frame);
    var rs' := rs + [frame];
    var issued' := issued + s'.ready;
    assert issued'[|issued'| - |s'.ready|..] == s'.ready;
    EarlierPagesStand(rs, s, s', frame, s.pages - 1);
    assert rs'[|rs|] == frame && rs'[s.pages] == rs[s.pages];
  }

  lemma AnswerTurn(issued: seq<ClientFrame>, rs: seq<Json>, s: State, frame: Json)
    requires AnswersOpen(issued, rs, s, frame, TurnStart)
    requires TurnResult(s, Get(frame, "result").value).Some?
    ensures Extends(issued, rs, TurnResult(s, Get(frame, "result").value).value, frame)
  {
    hide CheckScope;
    var s' := TurnResult(s, Get(frame, "result").value).value;
    var rs' := rs + [frame];
    assert issued + s'.ready == issued;
    assert TurnOf(frame) == Str(s'.turn.value);
    EarlierPagesStand(rs, s, s', frame, s.pages - 1);
    assert rs'[|rs|] == frame && rs'[s.pages] == rs[s.pages] && rs'[s.pages + 1] == rs[s.pages + 1];
  }

  lemma ResponseStep(e: Expected, frames: seq<Json>, rs: seq<Json>, s: State, issued: seq<ClientFrame>, frame: Json)
      returns (issued': seq<ClientFrame>)
    requires Inv(e, frames, rs, s, issued)
    requires FeedResponse(e, s, frame).Some?
    ensures Inv(e, frames, rs + [frame], FeedResponse(e, s, frame).value, issued')
  {
    hide Wire;
    hide PyEq;
    hide Layout;
    hide Slot;
    hide InitializeResult;
    hide PageResult;
    hide ThreadResult;
    hide TurnResult;
    var id := Get(frame, "id").value.n;
    OpenRequest(issued, |rs|, s, id);
    var s0 := s.(pending := map[]);
    LayoutDepends(issued, rs, s, s0);
    var kind := s.pending[id];
    var s' := FeedResponse(e, s, frame).value;
    issued' := issued + s'.ready;
    assert AnswersOpen(issued, rs, s0, frame, kind);
    match kind
    case Initialize => AnswerInitialize(e, issued, rs, s0, frame);
    case ModelList => AnswerPage(issued, rs, s0, frame);
    case ThreadStart => AnswerThread(e, issued, rs, s0, frame);
    case TurnStart => AnswerTurn(issued, rs, s0, frame);
  }

  // ---------------------------------------------------------------- every accepted frame sequence

  lemma {:induction false} BehaviourInv(e: Expected, evs: seq<Event>, states: seq<State>)
      returns (issued: seq<ClientFrame>)
    requires Behaviour(e, evs, states)
    ensures Inv(e, ClientFrames(evs), Responses(evs), Last(states), issued)
  {
    hide Layout;
    hide Slot;
    hide Wire;
    hide PyEq;
    hide FeedClient;
    hide FeedResponse;
    hide Notify;
    if evs == [] {
      issued := InitialInv(e);
    } else {
      var front, ev := evs[..|evs| - 1], evs[|evs| - 1];
      BehaviourPrefix(e, evs, states);
      issued := BehaviourInv(e, front, states[..|evs|]);
      var s := states[|evs| - 1];
      var frames, rs := ClientFrames(front), Responses(front);
      if ev.direction == Client {
        ClientStep(e, frames, rs, s, issued, ev.frame);
        assert Responses(evs) == rs;
      } else if IsResponse(ev) {
        issued := ResponseStep(e, frames, rs, s, issued, ev.frame);
        assert ClientFrames(evs) == frames;
      } else {
        issued := NoticeStep(e, frames, rs, s, issued, ev.frame);
        assert Responses(evs) == rs && ClientFrames(evs) == frames;
      }
    }
  }

  lemma InitialInv(e: Expected) returns (issued: seq<ClientFrame>)
    ensures Inv(e, [], [], Start(), issued)
  {
    issued := [Request(1, CallInitialize)];
  }

  function QueuedRequests(ready: seq<ClientFrame>): nat {
    if ready == [] then 0
    else (if ready[0].Request? then 1 else 0) + QueuedRequests(ready[1..])
  }

  lemma {:induction false} AtMostLastIsRequest(ready: seq<ClientFrame>)
    requires forall i | 0 <= i < |ready| - 1 :: ready[i] == Initialized
    ensures QueuedRequests(ready) == if ready != [] && ready[|ready| - 1].Request? then 1 else 0
  {
    if |ready| > 1 {
      assert ready[0] == Initialized;
      AtMostLastIsRequest(ready[1..]);
    }
  }

  /** In every state of every accepted frame sequence, at most one request is queued or unanswered. */
  lemma OneOpenRequest(e: Expected, evs: seq<Event>, states: seq<State>, n: nat)
    requires Behaviour(e, evs, states) && n <= |evs|
    ensures QueuedRequests(states[n].ready) + |states[n].pending| <= 1
  {
    hide Feed;
    hide Layout;
    hide Wire;
    hide PyEq;
    BehaviourUpTo(e, evs, states, n);
    var issued := BehaviourInv(e, evs[..n], states[..n + 1]);
    AtMostLastIsRequest(states[n].ready);
  }

  lemma BehaviourUpTo(e: Expected, evs: seq<Event>, states: seq<State>, n: nat)
    requires Behaviour(e, evs, states) && n <= |evs|
    ensures Behaviour(e, evs[..n], states[..n + 1])
  {
    hide Feed;
  }

  // ---------------------------------------------------------------- a finished session

  lemma FinishedLayout(issued: seq<ClientFrame>, rs: seq<Json>, s: State)
    requires Layout(issued, rs, s)
    requires s.turn.Some?
    ensures |rs| == s.pages + 3 == s.nextId - 1 && 1 <= s.pages <= MAX_PAGES && Answers(rs)
    ensures issued == Script(rs)
    ensures DistinctCursors(rs, s.pages - 1) && CursorOf(rs[s.pages]).Null?
    ensures s.thread.Some? && ThreadOf(rs[s.pages + 1]) == Str(s.thread.value)
    ensures TurnOf(rs[s.pages + 2]) == Str(s.turn.value)
  {
    assert forall i | 0 <= i < s.pages :: Script(rs)[i + 2] == PageRequest(rs, i);
  }

  /**
   Once the turn is identified the client has written exactly one script, fixed by the responses: k page
   requests with 1 <= k <= 16, ids 1 to k + 3 answered in order, each page request carrying the cursor of
   the response before it, and the turn addressed to the thread that was opened.
   */
  lemma CompleteScript(e: Expected, evs: seq<Event>, states: seq<State>)
    requires Behaviour(e, evs, states) && Last(states).turn.Some?
    ensures var rs := Responses(evs);
            && 4 <= |rs| <= MAX_PAGES + 3 && Answers(rs)
            && |ClientFrames(evs)| == |rs| + 1 && Follows(e, ClientFrames(evs), Script(rs))
  {
    hide Wire;
    hide PyEq;
    hide Layout;
    hide Feed;
    var issued := BehaviourInv(e, evs, states);
    FinishedLayout(issued, Responses(evs), Last(states));
    assert Script(Responses(evs))[|Responses(evs)|].Request?;
  }

  /** The catalog was read to its end without a repeated cursor, and the identities are the server's own. */
  lemma CompleteCatalog(e: Expected, evs: seq<Event>, states: seq<State>)
    requires Behaviour(e, evs, states) && Last(states).turn.Some?
    ensures var rs, s := Responses(evs), Last(states);
            && |rs| >= 4
            && DistinctCursors(rs, |rs| - 4) && CursorOf(rs[|rs| - 3]).Null?
            && s.thread.Some? && ThreadOf(rs[|rs| - 2]) == Str(s.thread.value)
            && TurnOf(rs[|rs| - 1]) == Str(s.turn.value)
  {
    hide Wire;
    hide PyEq;
    hide Slot;
    hide Layout;
    hide Feed;
    var issued := BehaviourInv(e, evs, states);
    FinishedLayout(issued, Responses(evs), Last(states));
  }
}
