/** What a replay that succeeds proves about the records it was given. */
module Replays {
  import opened Wrappers
  import opened JsonValues
  import opened Protocol
  import opened Conversation
  import opened Verdicts
  import opened Adapter
  import Resolutions

  /** The client wrote exactly the script that the responses determine, over a catalog read to its end. */
  ghost predicate WroteTheScript(e: Expected, evs: seq<Event>, v: Verdict) {
    var rs := Responses(evs);
    && 4 <= |rs| <= MAX_PAGES + 3 && Conversation.Answers(rs)
    && |ClientFrames(evs)| == |rs| + 1 && Follows(e, ClientFrames(evs), Script(rs))
    && DistinctCursors(rs, |rs| - 4) && CursorOf(rs[|rs| - 3]).Null?
    && ThreadOf(rs[|rs| - 2]) == Str(v.threadId) && TurnOf(rs[|rs| - 1]) == Str(v.turnId)
  }

  /** A notification that names a thread or a turn names those of the verdict; about items and turns it names both. */
  ghost predicate InScope(frame: Json, v: Verdict) {
    && (StartedThread(frame).Some? ==> StartedThread(frame).value == Str(v.threadId))
    && (ScopeOf(frame).Some? ==> ScopeOf(frame).value.threadId in {None, Some(v.threadId)}
                                 && ScopeOf(frame).value.turnId in {None, Some(v.turnId)})
    && (TurnScoped(Topic(frame)) ==> ScopeOf(frame) == Some(Scope(Some(v.threadId), Some(v.turnId))))
  }

  /** Frame i is the only completion, and no item or turn notification comes after it. */
  ghost predicate OnlyCompletion(evs: seq<Event>, i: nat) {
    && i < |evs| && IsCompletion(evs[i])
    && (forall j | 0 <= j < |evs| && IsCompletion(evs[j]) :: j == i)
    && (forall j | i < j < |evs| && IsNotice(evs[j]) :: !TurnScoped(Topic(evs[j].frame)))
  }

  lemma ReplayIsRun(codec: Codec, e: Expected, records: seq<Record>) returns (states: seq<State>)
    requires Replay(codec, e, records).Some?
    ensures Behaviour(e, EventsOf(codec, records), states)
    ensures Finish(e, codec.parseText, Last(states)) == Replay(codec, e, records)
  {
    hide Feed, Finish;
    states := RunHasBehaviour(e, EventsOf(codec, records));
  }

  lemma VerdictIdentities(e: Expected, parseText: string -> Option<Json>, s: State)
    requires Finish(e, parseText, s).Some?
    ensures s.thread == Some(Finish(e, parseText, s).value.threadId)
    ensures s.turn == Some(Finish(e, parseText, s).value.turnId)
  {
    hide CheckScope, FinalAnswer, CompletedTurnAgrees;
  }

  lemma FinishedWroteTheScript(e: Expected, parseText: string -> Option<Json>, evs: seq<Event>, states: seq<State>)
    requires Behaviour(e, evs, states) && Finish(e, parseText, Last(states)).Some?
    ensures WroteTheScript(e, evs, Finish(e, parseText, Last(states)).value)
  {
    hide Feed, Finish, Follows, DistinctCursors, Conversation.Answers;
    hide Responses, ClientFrames, Script, CursorOf, ThreadOf, TurnOf;
    VerdictIdentities(e, parseText, Last(states));
    CompleteScript(e, evs, states);
    CompleteCatalog(e, evs, states);
  }

  lemma FinishedInScope(e: Expected, parseText: string -> Option<Json>, evs: seq<Event>, states: seq<State>, n: nat)
    requires Behaviour(e, evs, states) && Finish(e, parseText, Last(states)).Some? && n < |evs| && IsNotice(evs[n])
    ensures InScope(evs[n].frame, Finish(e, parseText, Last(states)).value)
  {
    hide Feed, Finish, ScopeOf, StartedThread, TurnScoped;
    VerdictIdentities(e, parseText, Last(states));
    EveryNoticeInScope(e, evs, states, n);
  }

  lemma FinishedOnce(e: Expected, parseText: string -> Option<Json>, evs: seq<Event>, states: seq<State>)
      returns (i: nat)
    requires Behaviour(e, evs, states) && Finish(e, parseText, Last(states)).Some?
    ensures i < |evs| && IsCompletion(evs[i]) && OnlyCompletion(evs, i)
  {
    hide Feed, Finish, TurnScoped;
    i := FinishedHasCompletion(e, parseText, evs, states);
    forall j | i < j < |evs| && IsNotice(evs[j])
      ensures !TurnScoped(Topic(evs[j].frame))
    {
      NothingAfterCompletion(e, evs, states, i, j);
    }
  }

  /**
   The client frames are exactly the script the responses determine, with one catalog read to the end; every
   notification speaks for the verdict's own thread and turn; frame i is the one turn/completed, with no item or
   turn notification after it; and the response text is that of agent message k, which is beyond doubt the answer.
   */
  ghost predicate IsWhole(e: Expected, evs: seq<Event>, v: Verdict, i: nat, k: nat) {
    && WroteTheScript(e, evs, v)
    && (forall n | 0 <= n < |evs| && IsNotice(evs[n]) :: InScope(evs[n].frame, v))
    && OnlyCompletion(evs, i)
    && IsTheAnswer(Collect(evs, AgentMessage), k)
    && k < |Collect(evs, AgentMessage)|
    && Get(Collect(evs, AgentMessage)[k], "text") == Some(Str(v.responseText))
  }

  /** Every record sequence that replay accepts is a whole session. */
  lemma AcceptedReplay(codec: Codec, e: Expected, records: seq<Record>) returns (i: nat, k: nat)
    requires Replay(codec, e, records).Some?
    ensures IsWhole(e, EventsOf(codec, records), Replay(codec, e, records).value, i, k)
    ensures Resolutions.Confirmed(e, codec.parseText, EventsOf(codec, records), Replay(codec, e, records).value, i)
  {
    hide Resolutions.Confirmed;
    hide Feed, Finish, Replay, EventsOf, WroteTheScript, InScope, OnlyCompletion, IsTheAnswer, Collect, IsNotice;
    var evs := EventsOf(codec, records);
    var states := ReplayIsRun(codec, e, records);
    FinishedWroteTheScript(e, codec.parseText, evs, states);
    forall n | 0 <= n < |evs| && IsNotice(evs[n])
      ensures InScope(evs[n].frame, Replay(codec, e, records).value)
    {
      FinishedInScope(e, codec.parseText, evs, states, n);
    }
    i := FinishedOnce(e, codec.parseText, evs, states);
    Resolutions.FinishedIsConfirmed(e, codec.parseText, evs, states, i);
    k := ResponseTextWasSent(e, codec.parseText, evs, states);
    AnswerIsThere(Collect(evs, AgentMessage), k);
  }

  lemma AnswerIsThere(answers: seq<Json>, k: nat)
    requires IsTheAnswer(answers, k)
    ensures k < |answers|
  {
  }

  /** Once some first records have a verdict, more records are either refused or leave that verdict. */
  lemma ReplayStands(codec: Codec, e: Expected, records: seq<Record>, m: nat)
    requires m <= |records| && Replay(codec, e, records[..m]).Some?
    ensures Replay(codec, e, records) in {None, Replay(codec, e, records[..m])}
  {
    hide Feed, Finish;
    var evs := EventsOf(codec, records);
    assert EventsOf(codec, records[..m]) == evs[..m];
    if Run(e, evs).Some? {
      var states := RunHasBehaviour(e, evs);
      BehaviourUpTo(e, evs, states, m);
      BehaviourRuns(e, evs[..m], states[..m + 1]);
      VerdictStands(e, codec.parseText, evs, states, m, |evs|);
    }
  }
}
