/**
 `_Session` in the form the adapter runs it: an object whose methods update its fields in place. Every
 method is tied to the meaning given in `Protocol`; a call that raises returns `ok == false`.
 */
module Sessions {
  import opened Wrappers
  import opened JsonValues
  import P = Protocol
  import opened Protocol

  class Session {
    const expected: Expected
    var ready: seq<ClientFrame>
    var pending: map<int, Method>
    var nextId: int
    var initializeComplete: bool
    var snapshot: Option<Json>
    var cursors: set<string>
    var models: seq<Json>
    var pages: nat
    var thread: Option<string>
    var turn: Option<string>
    var threadEvents: seq<Json>
    var scopes: seq<Scope>
    var completed: seq<Json>
    var answers: seq<Json>
    var completedItems: set<string>

    ghost function View(): State
      reads this
    {
      State(ready, pending, nextId, initializeComplete, snapshot, cursors, models, pages, thread, turn,
            threadEvents, scopes, completed, answers, completedItems)
    }

    constructor (expected: Expected)
      ensures this.expected == expected && View() == Start()
    {
      this.expected := expected;
      ready, pending, nextId := [], map[], 1;
      initializeComplete, snapshot := false, None;
      cursors, models, pages := {}, [], 0;
      thread, turn, threadEvents, scopes := None, None, [], [];
      completed, answers, completedItems := [], [], {};
      new;
      Ask(CallInitialize);
    }

    method Ask(call: Call)
      modifies this
      ensures View() == Enqueue(old(View()), call)
    {
      ready := ready + [Request(nextId, call)];
      nextId := nextId + 1;
    }

    method CheckScope() returns (ok: bool)
      ensures ok == P.CheckScope(View())
    {
      ok := true;
      if thread.Some? {
        ok := (forall t | t in threadEvents :: t == Str(thread.value))
              && forall c | c in scopes :: c.threadId.None? || c.threadId == thread;
      }
      if turn.Some? {
        ok := ok && forall c | c in scopes :: c.turnId.None? || c.turnId == turn;
      }
    }

    method Feed(ev: Event) returns (ok: bool)
      modifies this
      ensures ok == P.Feed(expected, old(View()), ev).Some?
      ensures ok ==> View() == P.Feed(expected, old(View()), ev).value
    {
      hide P.Notify;
      hide P.Respond;
      hide Wire;
      hide PyEq;
      ok := false;
      if !ev.frame.Obj? {
        return;
      }
      var frame, id := ev.frame, Get(ev.frame, "id");
      if ev.direction == Client {
        if (id.Some? && !id.value.Int?) || ready == [] || !PyEq(frame, Wire(expected, ready[0])) {
          return;
        }
        var want := ready[0];
        ready := ready[1..];
        if want.Request? {
          pending := pending[want.id := MethodOf(want.call)];
        }
        return true;
      }
      if ev.direction != Server {
        return;
      }
      if id.Some? {
        if Get(frame, "method").Some? || !id.value.Int? || id.value.n !in pending {
          return;
        }
        var kind := pending[id.value.n];
        pending := pending - {id.value.n};
        var result := Get(frame, "result");
        if Get(frame, "error").Some? || result.None? || !result.value.Obj? {
          return;
        }
        ok := Response(kind, result.value);
        return;
      }
      ok := Notice(frame);
    }

    method Notice(frame: Json) returns (ok: bool)
      modifies this
      ensures ok == Notify(expected, old(View()), frame).Some?
      ensures ok ==> View() == Notify(expected, old(View()), frame).value
    {
      hide TurnScoped;
      hide RemoteStatus;
      hide ThreadStarted;
      hide TurnEvent;
      hide Information;
      hide P.CheckScope;
      ok := false;
      var topic, params := Get(frame, "method"), Get(frame, "params");
      if !IsStr(topic) || params.None? || !params.value.Obj? {
        return;
      }
      if !IdentityKey(params.value, "threadId") || !IdentityKey(params.value, "turnId") {
        return;
      }
      if TurnScoped(topic.value.s) {
        if (turn.None? && TurnStart !in pending.Values) || completed != [] {
          return;
        }
      } else if ThreadScoped(topic.value.s) {
        if thread.None? && ThreadStart !in pending.Values {
          return;
        }
      }
      if topic.value.s == "remoteControl/status/changed" {
        ok := NoteRemoteStatus(frame);
      } else if topic.value.s == "thread/started" {
        ok := NoteThread(params.value);
      } else if topic.value.s == "turn/started" || topic.value.s == "turn/completed" {
        ok := NoteTurn(topic.value.s, params.value);
      } else if topic.value.s in INFO || topic.value.s == "item/completed" {
        ok := NoteInformation(topic.value.s, params.value);
      }
      if ok {
        ok := CheckScope();
      }
    }

    method NoteRemoteStatus(frame: Json) returns (ok: bool)
      modifies this
      ensures ok == RemoteStatus(old(View()), frame).Some?
      ensures ok ==> View() == RemoteStatus(old(View()), frame).value
    {
      hide IsDisabledSnapshot;
      ok := Get(frame, "params").Some?
            && initializeComplete && snapshot.None?
            && pages == 0 && thread.None? && turn.None? && completed == []
            && ModelList !in pending.Values && ThreadStart !in pending.Values && TurnStart !in pending.Values
            && IsDisabledSnapshot(frame);
      if ok {
        snapshot := Get(frame, "params");
        Ask(CallModelList(None));
      }
    }

    method NoteThread(params: Json) returns (ok: bool)
      modifies this
      ensures ok == ThreadStarted(old(View()), params).Some?
      ensures ok ==> View() == ThreadStarted(old(View()), params).value
    {
      ok := thread.Some? || ThreadStart in pending.Values;
      var started := Get(params, "thread");
      if !ok || started.None? || Get(started.value, "id").None? {
        return false;
      }
      threadEvents := threadEvents + [Get(started.value, "id").value];
      ok := |threadEvents| == 1;
    }

    method NoteTurn(topic: string, params: Json) returns (ok: bool)
      modifies this
      ensures ok == TurnEvent(old(View()), topic, params).Some?
      ensures ok ==> View() == TurnEvent(old(View()), topic, params).value
    {
      ok := false;
      var reported := Get(params, "turn");
      if (turn.None? && TurnStart !in pending.Values) || reported.None? || !reported.value.Obj? {
        return;
      }
      if !IsStr(Get(params, "threadId")) || !IsNonemptyStr(Get(reported.value, "id")) {
        return;
      }
      scopes := scopes + [Scope(TextOf(Get(params, "threadId")), TextOf(Get(reported.value, "id")))];
      if !RunningStatus(Get(reported.value, "status")) {
        return;
      }
      if topic == "turn/completed" {
        if !HasText(reported.value, "status", "completed") || Get(reported.value, "error") != Some(Null) {
          return;
        }
        completed := completed + [reported.value];
        if |completed| != 1 {
          return;
        }
      }
      ok := true;
    }

    method NoteInformation(topic: string, params: Json) returns (ok: bool)
      modifies this
      ensures ok == Information(expected, old(View()), topic, params).Some?
      ensures ok ==> View() == Information(expected, old(View()), topic, params).value
    {
      hide TurnScoped;
      hide PyEq;
      hide Input;
      hide CompleteItem;
      ok := false;
      if TurnScoped(topic) && (!IsStr(Get(params, "threadId")) || !IsStr(Get(params, "turnId"))) {
        return;
      }
      scopes := scopes + [ParamScope(params)];
      if topic == "item/started" || topic == "item/completed" {
        var item := Get(params, "item");
        if item.None? || !IsItem(item.value) || !IsStr(Get(item.value, "id")) {
          return;
        }
        if HasText(item.value, "type", "userMessage") {
          var content := Get(item.value, "content");
          if content.None? || !PyEq(content.value, Input(expected)) {
            return;
          }
        }
        if topic == "item/completed" {
          ok := NoteCompletedItem(item.value);
          return;
        }
      }
      ok := true;
    }

    method NoteCompletedItem(item: Json) returns (ok: bool)
      requires IsItem(item) && IsStr(Get(item, "id"))
      modifies this
      ensures ok == CompleteItem(old(View()), item).Some?
      ensures ok ==> View() == CompleteItem(old(View()), item).value
    {
      var id := Get(item, "id").value.s;
      if id in completedItems {
        return false;
      }
      completedItems := completedItems + {id};
      if HasText(item, "type", "agentMessage") {
        if !IsStr(Get(item, "text")) {
          return false;
        }
        answers := answers + [item];
      }
      ok := true;
    }

    method Response(kind: Method, result: Json) returns (ok: bool)
      requires result.Obj?
      modifies this
      ensures ok == Respond(expected, old(View()), kind, result).Some?
      ensures ok ==> View() == Respond(expected, old(View()), kind, result).value
    {
      hide ResolvedSettings;
      hide P.CheckScope;
      hide PageResult;
      ok := false;
      match kind
      case Initialize =>
        if (forall k | k in {"userAgent", "codexHome", "platformFamily", "platformOs"} :: IsNonemptyStr(Get(result, k)))
           && HasText(result, "codexHome", expected.codexHome)
        {
          initializeComplete := true;
          ready := ready + [Initialized];
          ok := true;
        }
      case ModelList =>
        ok := TakePage(result);
      case ThreadStart =>
        var granted := Get(result, "thread");
        if !ResolvedSettings(expected, result) || granted.None? || !IsNonemptyStr(Get(granted.value, "id")) {
          return;
        }
        thread := TextOf(Get(granted.value, "id"));
        ok := CheckScope();
        if ok {
          Ask(CallTurnStart(thread.value));
        }
      case TurnStart =>
        var begun := Get(result, "turn");
        if begun.None? || !IsNonemptyStr(Get(begun.value, "id")) || !RunningStatus(Get(begun.value, "status"))
           || !IsAbsentOrNull(Get(begun.value, "error"))
        {
          return;
        }
        turn := TextOf(Get(begun.value, "id"));
        ok := CheckScope();
    }

    method TakePage(result: Json) returns (ok: bool)
      modifies this
      ensures ok == PageResult(old(View()), result).Some?
      ensures ok ==> View() == PageResult(old(View()), result).value
    {
      hide ValidCatalog;
      hide OffersProfile;
      ok := false;
      pages := pages + 1;
      var data, cursor := Get(result, "data"), Get(result, "nextCursor");
      if data.None? || !data.value.Arr? || |data.value.items| > MAX_PAGE_MODELS || pages > MAX_PAGES || cursor.None? {
        return;
      }
      models := models + data.value.items;
      if !ValidCatalog(models) {
        return;
      }
      if !cursor.value.Null? {
        if !IsNonemptyStr(cursor) || cursor.value.s in cursors || pages >= MAX_PAGES {
          return;
        }
        cursors := cursors + {cursor.value.s};
        Ask(CallModelList(Some(cursor.value.s)));
        return true;
      }
      if OffersProfile(models) {
        Ask(CallThreadStart);
        ok := true;
      }
    }

    method CompletedItemsAgree(reported: Json) returns (ok: bool)
      ensures ok == CompletedTurnAgrees(expected, answers, reported)
    {
      hide RepeatedItem;
      ok := true;
      match Get(reported, "items")
      case None =>
      case Some(Arr(items)) =>
        for i := 0 to |items|
          invariant forall j | 0 <= j < i :: RepeatedItem(expected, answers, items[j])
        {
          if !RepeatedItem(expected, answers, items[i]) {
            return false;
          }
        }
      case Some(Obj(fields)) =>
        ok := fields == map[];
      case Some(Str(content)) =>
        ok := content == "";
      case Some(_) =>
        ok := false;
    }

    method Finish(parseText: string -> Option<Json>) returns (r: Option<Verdict>)
      ensures r == P.Finish(expected, parseText, View())
    {
      hide FinalAnswer;
      hide CompletedTurnAgrees;
      hide P.CheckScope;
      r := None;
      if !initializeComplete || snapshot.None? {
        return;
      }
      if ready != [] || pending != map[] || thread.None? || turn.None? || |completed| != 1 {
        return;
      }
      var inScope := CheckScope();
      var answer := FinalAnswer(answers);
      if !inScope || answer.None? || !IsStr(Get(answer.value, "text")) {
        return;
      }
      var text := Get(answer.value, "text").value.s;
      if !IsVersion2(parseText(text)) {
        return;
      }
      var agrees := CompletedItemsAgree(completed[0]);
      if !agrees {
        return;
      }
      r := Some(Verdict(thread.value, turn.value, text));
    }
  }
}
