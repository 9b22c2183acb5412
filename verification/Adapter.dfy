/**
 The adapter around the session: cutting the provider's output into lines, recording every frame before
 it is fed, and replaying the recording afterwards.
 */
module Adapter {
  import opened Wrappers
  import opened Texts
  import opened JsonValues
  import opened Protocol
  import opened Sessions
  import opened Verdicts

  const NEWLINE: byte := 10
  const MAX_LINE := 1024 * 1024
  const MAX_STREAM := 4 * 1024 * 1024
  const MAX_CAPTURE := 12 * 1024 * 1024
  const MAX_FRAMES := 10_000
  const ENVELOPE_ROOM := 65536

  /** Text handling, left open: strict JSON reading, JSON printing, UTF-8, record sizes and the header check. */
  datatype Codec = Codec(
    decodes: Bytes -> bool,
    parse: Bytes -> Option<Json>,
    parseText: string -> Option<Json>,
    dump: Json -> Bytes,
    recordSize: Record -> nat,
    validHeader: Json -> bool)

  /** `raw` is the UTF-8 form of the recorded text. */
  datatype Record = Record(number: int, direction: Direction, raw: Bytes)

  datatype Status = Completed | Failed | TimedOut | Interrupted

  datatype Footer = Footer(status: Status, exitCode: Option<int>, budgetExhausted: bool)

  const CLEAN_EXIT := Footer(Completed, Some(0), false)

  datatype Capture = Capture(header: Json, frames: seq<Record>, footer: Footer, size: nat)

  // ---------------------------------------------------------------- lines

  predicate IsLine(raw: Bytes) {
    raw != [] && raw[|raw| - 1] == NEWLINE && NEWLINE !in raw[..|raw| - 1]
  }

  function Flatten(lines: seq<Bytes>): Bytes {
    if lines == [] then [] else Flatten(lines[..|lines| - 1]) + lines[|lines| - 1]
  }

  /** The reference division of a byte stream: its complete lines, and what is left after the last of them. */
  function Lines(bytes: Bytes): seq<Bytes> {
    if NEWLINE !in bytes then []
    else
      var i := IndexOf(bytes, NEWLINE);
      [bytes[..i + 1]] + Lines(bytes[i + 1..])
  }

  function Rest(bytes: Bytes): Bytes {
    if NEWLINE !in bytes then bytes else Rest(bytes[IndexOf(bytes, NEWLINE) + 1..])
  }

  lemma FlattenCons(line: Bytes, lines: seq<Bytes>)
    ensures Flatten([line] + lines) == line + Flatten(lines)
  {
    if lines != [] {
      var front, last := lines[..|lines| - 1], lines[|lines| - 1];
      FlattenCons(line, front);
      assert ([line] + lines)[..|lines|] == [line] + front;
      assert Flatten([line] + lines) == Flatten([line] + front) + last;
    } else {
      assert [line] + lines == [line];
      assert [line][..0] == [];
    }
  }

  /** A stream can be divided into lines and a newline-free rest in one way only. */
  lemma {:induction false} DivisionIsUnique(lines: seq<Bytes>, rest: Bytes)
    requires (forall l | l in lines :: IsLine(l)) && NEWLINE !in rest
    ensures Lines(Flatten(lines) + rest) == lines && Rest(Flatten(lines) + rest) == rest
  {
    var all := Flatten(lines) + rest;
    if lines == [] {
      assert all == rest;
    } else {
      var line, tail := lines[0], lines[1..];
      assert lines == [line] + tail && line in lines;
      FlattenCons(line, tail);
      var after := Flatten(tail) + rest;
      assert all == line + after;
      assert all[|line| - 1] == NEWLINE;
      FirstNewline(line, after);
      assert all[..|line|] == line && all[|line|..] == after;
      DivisionIsUnique(tail, rest);
    }
  }

  lemma FirstNewline(line: Bytes, after: Bytes)
    requires IsLine(line)
    ensures NEWLINE in line + after && IndexOf(line + after, NEWLINE) == |line| - 1
  {
    var all := line + after;
    assert all[|line| - 1] == NEWLINE;
    var i := IndexOf(all, NEWLINE);
    forall k | 0 <= k < |line| - 1
      ensures all[k] != NEWLINE
    {
      assert all[k] == line[..|line| - 1][k];
    }
    forall k | 0 <= k < i
      ensures all[k] != NEWLINE
    {
      assert all[k] == all[..i][k];
    }
  }

  // ---------------------------------------------------------------- replay

  function ServerLines(records: seq<Record>): seq<Bytes> {
    if records == [] then []
    else
      var last := records[|records| - 1];
      ServerLines(records[..|records| - 1]) + if last.direction == Server then [last.raw] else []
  }

  function EventsOf(codec: Codec, records: seq<Record>): seq<Event> {
    seq(|records|, i requires 0 <= i < |records| =>
      Event(records[i].direction, OrNull(codec.parse(records[i].raw))))
  }

  predicate ValidRecord(codec: Codec, record: Record, number: int) {
    && record.number == number
    && record.raw != [] && record.raw[|record.raw| - 1] == NEWLINE && |record.raw| <= MAX_LINE
    && codec.parse(record.raw).Some?
  }

  predicate ValidRecords(codec: Codec, records: seq<Record>) {
    |records| <= MAX_FRAMES && forall i | 0 <= i < |records| :: ValidRecord(codec, records[i], i + 1)
  }

  function Replay(codec: Codec, e: Expected, records: seq<Record>): Option<Verdict> {
    if !ValidRecords(codec, records) then None
    else
      var s :- Run(e, EventsOf(codec, records));
      Finish(e, codec.parseText, s)
  }

  function ReplayCapture(codec: Codec, e: Expected, capture: Capture, stdout: Bytes): Option<Verdict> {
    if && capture.size <= MAX_CAPTURE && |stdout| <= MAX_STREAM
       && |capture.frames| <= MAX_FRAMES
       && codec.validHeader(capture.header)
       && capture.footer == CLEAN_EXIT
       && Flatten(ServerLines(capture.frames)) == stdout
    then Replay(codec, e, capture.frames)
    else None
  }

  /** Record i as it was written: numbered from one, one line of up to a mebibyte, and JSON. */
  ghost predicate IsRecordAt(codec: Codec, records: seq<Record>, i: nat)
    requires i < |records|
  {
    var raw := records[i].raw;
    && records[i].number == i + 1 && 1 <= |raw| <= 1_048_576 && raw[|raw| - 1] == 10 && codec.parse(raw).Some?
  }

  /** Records replay to a verdict exactly when each is as it was written and the session, fed with all, finishes so. */
  lemma ReplayIsExact(codec: Codec, e: Expected, records: seq<Record>, v: Verdict)
    ensures Replay(codec, e, records) == Some(v) <==>
      && |records| <= 10_000 && (forall i | 0 <= i < |records| :: IsRecordAt(codec, records, i))
      && exists s :: Run(e, EventsOf(codec, records)) == Some(s) && Finish(e, codec.parseText, s) == Some(v)
  {
    hide Run, Finish, EventsOf;
    forall i | 0 <= i < |records|
      ensures ValidRecord(codec, records[i], i + 1) <==> IsRecordAt(codec, records, i)
    {
    }
  }

  lemma Append(codec: Codec, e: Expected, records: seq<Record>, record: Record)
    ensures ServerLines(records + [record])
         == ServerLines(records) + if record.direction == Server then [record.raw] else []
    ensures var evs, ev := EventsOf(codec, records), Event(record.direction, OrNull(codec.parse(record.raw)));
            Run(e, evs).Some? ==> Run(e, EventsOf(codec, records + [record])) == Feed(e, Run(e, evs).value, ev)
    ensures TotalSize(codec, records + [record]) == TotalSize(codec, records) + codec.recordSize(record)
    ensures ClientSize(records + [record])
         == ClientSize(records) + if record.direction == Client then |record.raw| else 0
  {
    hide Feed;
    var all := records + [record];
    assert all[..|records|] == records;
    EventsOfAppend(codec, records, record);
    var evs := EventsOf(codec, all);
    assert evs[..|records|] == EventsOf(codec, records);
  }

  lemma EventsOfAppend(codec: Codec, records: seq<Record>, record: Record)
    ensures EventsOf(codec, records + [record])
         == EventsOf(codec, records) + [Event(record.direction, OrNull(codec.parse(record.raw)))]
  {
  }

  lemma {:induction false} RefusedForGood(e: Expected, evs: seq<Event>, n: nat)
    requires n <= |evs| && Run(e, evs[..n]).None?
    ensures Run(e, evs).None?
    decreases |evs|
  {
    hide Feed;
    if n < |evs| {
      assert evs[..|evs| - 1][..n] == evs[..n];
      RefusedForGood(e, evs[..|evs| - 1], n);
    } else {
      assert evs[..n] == evs;
    }
  }

  /** `replay_protocol`: a fresh session fed record by record, then finished. */
  method ReplayProtocol(codec: Codec, records: seq<Record>, e: Expected) returns (r: Option<Verdict>)
    ensures r == Replay(codec, e, records)
  {
    hide Feed;
    hide Finish;
    if |records| > MAX_FRAMES {
      return None;
    }
    var session := new Session(e);
    ghost var evs := EventsOf(codec, records);
    for i := 0 to |records|
      invariant session.expected == e
      invariant forall j | 0 <= j < i :: ValidRecord(codec, records[j], j + 1)
      invariant Run(e, evs[..i]) == Some(session.View())
    {
      if !ValidRecord(codec, records[i], i + 1) {
        return None;
      }
      var ok := session.Feed(Event(records[i].direction, codec.parse(records[i].raw).value));
      assert evs[..i + 1][..i] == evs[..i];
      if !ok {
        RefusedForGood(e, evs, i + 1);
        return None;
      }
    }
    assert evs[..|records|] == evs;
    r := session.Finish(codec.parseText);
  }

  // ---------------------------------------------------------------- the live run

  function TotalSize(codec: Codec, records: seq<Record>): nat {
    if records == [] then 0
    else TotalSize(codec, records[..|records| - 1]) + codec.recordSize(records[|records| - 1])
  }

  /** What the selector reports: a frame left in full, or the provider wrote something. */
  datatype Input = Written | Output(data: Bytes)

  /**
   One pass of the main loop: the run may be cut short; or the provider has exited with its streams drained; or
   some channels are ready.
   */
  datatype Turn = CutShort | Drained(exitCode: int) | Ready(inputs: seq<Input>)

  function OutputOf(inputs: seq<Input>): Bytes {
    if inputs == [] then []
    else
      var last := inputs[|inputs| - 1];
      OutputOf(inputs[..|inputs| - 1]) + if last.Output? then last.data else []
  }

  function Produced(turns: seq<Turn>): Bytes {
    if turns == [] then []
    else
      var last := turns[|turns| - 1];
      Produced(turns[..|turns| - 1]) + if last.Ready? then OutputOf(last.inputs) else []
  }

  lemma {:induction false} OutputGrows(inputs: seq<Input>, i: nat)
    requires i < |inputs|
    ensures OutputOf(inputs[..i + 1]) <= OutputOf(inputs)
    decreases |inputs|
  {
    if i + 1 < |inputs| {
      OutputGrows(inputs[..|inputs| - 1], i);
      assert inputs[..|inputs| - 1][..i + 1] == inputs[..i + 1];
    } else {
      assert inputs[..i + 1] == inputs;
    }
  }

  lemma ProducedNext(turns: seq<Turn>, n: nat)
    requires n < |turns|
    ensures Produced(turns[..n + 1])
         == Produced(turns[..n]) + if turns[n].Ready? then OutputOf(turns[n].inputs) else []
  {
    assert turns[..n + 1][..n] == turns[..n];
  }

  predicate IsWire(raw: Bytes) {
    raw != [] && raw[|raw| - 1] == NEWLINE && |raw| <= MAX_LINE
  }

  /** The bytes of the recorded client frames. */
  function ClientSize(records: seq<Record>): nat {
    if records == [] then 0
    else
      var last := records[|records| - 1];
      ClientSize(records[..|records| - 1]) + if last.direction == Client then |last.raw| else 0
  }

  /** There is room for one more record, its text is JSON, and the session that took those before takes it. */
  predicate Takes(codec: Codec, e: Expected, before: seq<Record>, record: Record) {
    && |before| < 10_000 && TotalSize(codec, before) + codec.recordSize(record) <= 12_582_912 - 65_536
    && codec.parse(record.raw).Some?
    && Run(e, EventsOf(codec, before)).Some?
    && Feed(e, Run(e, EventsOf(codec, before)).value, Event(record.direction, codec.parse(record.raw).value)).Some?
  }

  /** The frame that the session requires next, as it is written. */
  predicate IsNext(codec: Codec, e: Expected, s: State, raw: Bytes) {
    s.ready != [] && raw == codec.dump(Wire(e, s.ready[0])) + [NEWLINE]
  }

  /** What the server sends only adds to what is required. */
  lemma ServerOnlyAdds(e: Expected, s: State, frame: Json)
    requires Feed(e, s, Event(Server, frame)).Some?
    ensures s.ready <= Feed(e, s, Event(Server, frame)).value.ready
  {
    hide Respond, Notify, Get;
    if Get(frame, "id").Some? {
      var id := Get(frame, "id").value;
      AnswerOnlyAdds(e, s.(pending := s.pending - {id.n}), s.pending[id.n], Get(frame, "result").value);
    } else {
      NoticeOnlyAdds(e, s, frame);
    }
  }

  lemma AnswerOnlyAdds(e: Expected, s: State, kind: Method, result: Json)
    requires Respond(e, s, kind, result).Some?
    ensures s.ready <= Respond(e, s, kind, result).value.ready
  {
    hide InitializeResult, PageResult, ThreadResult, TurnResult;
    match kind
    case Initialize => GreetingOnlyAdds(e, s, result);
    case ModelList => PageOnlyAdds(s, result);
    case ThreadStart => ThreadOnlyAdds(e, s, result);
    case TurnStart => TurnOnlyAdds(s, result);
  }

  lemma GreetingOnlyAdds(e: Expected, s: State, result: Json)
    requires InitializeResult(e, s, result).Some?
    ensures s.ready <= InitializeResult(e, s, result).value.ready
  {
    hide Get, HasText, IsNonemptyStr;
  }

  lemma PageOnlyAdds(s: State, result: Json)
    requires PageResult(s, result).Some?
    ensures s.ready <= PageResult(s, result).value.ready
  {
    hide Get, OffersProfile, ValidCatalog;
  }

  lemma ThreadOnlyAdds(e: Expected, s: State, result: Json)
    requires ThreadResult(e, s, result).Some?
    ensures s.ready <= ThreadResult(e, s, result).value.ready
  {
    hide Get, ResolvedSettings, CheckScope;
  }

  lemma TurnOnlyAdds(s: State, result: Json)
    requires TurnResult(s, result).Some?
    ensures s.ready <= TurnResult(s, result).value.ready
  {
    hide Get, CheckScope, RunningStatus, IsAbsentOrNull;
  }

  lemma NoticeOnlyAdds(e: Expected, s: State, frame: Json)
    requires Notify(e, s, frame).Some?
    ensures s.ready <= Notify(e, s, frame).value.ready
  {
    hide Notify;
  }

  /** Everything that was required has been sent and answered, and the turn has been completed. */
  predicate Answered(s: State) {
    s.completed != [] && s.ready == [] && s.pending == map[]
  }

  lemma NextStays(codec: Codec, e: Expected, s: State, s': State, raw: Bytes)
    requires IsNext(codec, e, s, raw) && s.ready <= s'.ready
    ensures IsNext(codec, e, s', raw)
  {
  }

  /** Why moving frames comes to an end. */
  datatype Block = Overflow | BadLine(raw: Bytes) | LongRest | Refused(before: seq<Record>, record: Record)

  /** Why a run ends without a verdict. */
  datatype Cause = Stopped | NeverDrained | LongFrame | NoVerdict | Unanswered | BadExit | Stuck(block: Block)

  /** The part of `run_app_server` that moves frames: what it has captured, recorded, fed and still holds. */
  class LiveRun {
    const codec: Codec
    const expected: Expected
    const session: Session
    var records: seq<Record>
    var protocolSize: nat
    var stdout: Bytes
    var buffer: Bytes
    var writing: Option<Bytes>
    var clientSize: nat
    var replay: Option<Verdict>

    ghost predicate Recorded()
      reads this`records, this`protocolSize, this`replay, session
    {
      && session.expected == expected
      && ValidRecords(codec, records)
      && Run(expected, EventsOf(codec, records)) == Some(session.View())
      && protocolSize == TotalSize(codec, records) <= MAX_CAPTURE - ENVELOPE_ROOM
      && (forall l | l in ServerLines(records) :: IsLine(l))
      && (replay.Some? ==> Finish(expected, codec.parseText, session.View()) == replay)
    }

    /** What is being written is the next required frame, and with what the client has written is within its bound. */
    ghost predicate Sending()
      reads this`records, this`writing, this`clientSize, session
    {
      && clientSize == ClientSize(records)
      && clientSize + (if writing.Some? then |writing.value| else 0) <= MAX_STREAM
      && (writing.Some? ==> IsWire(writing.value) && IsNext(codec, expected, session.View(), writing.value))
    }

    /** Nothing captured is lost or invented: it is recorded line by line, and the rest is still held. */
    ghost predicate Divided()
      reads this
    {
      stdout == Flatten(ServerLines(records)) + buffer && |stdout| <= MAX_STREAM
    }

    ghost predicate Valid()
      reads this, session
    {
      Recorded() && Sending() && Divided() && NEWLINE !in buffer && |buffer| <= MAX_LINE
    }

    /**
     What each of them means: the captured output is full; its next line is too long or no text; the part
     after its last line is too long; or one more frame, the server's next line or the client's next frame, was not
     taken.
     */
    ghost predicate Blocked(block: Block)
      reads this
    {
      match block
      case Overflow => |stdout| == 4_194_304
      case BadLine(raw) =>
        IsLine(raw) && Flatten(ServerLines(records)) + raw <= stdout && (|raw| > 1_048_576 || !codec.decodes(raw))
      case LongRest =>
        stdout == Flatten(ServerLines(records)) + buffer && NEWLINE !in buffer && |buffer| > 1_048_576
      case Refused(before, record) =>
        && !Takes(codec, expected, before, record) && Run(expected, EventsOf(codec, before)).Some?
        && record.number == |before| + 1 && (records == before || records == before + [record])
        && (record.direction == Server ==> IsLine(record.raw) && Flatten(ServerLines(before)) + record.raw <= stdout)
        && (record.direction == Client ==>
              IsNext(codec, expected, Run(expected, EventsOf(codec, before)).value, record.raw))
    }

    constructor (codec: Codec, expected: Expected)
      ensures Valid() && fresh(session)
      ensures this.codec == codec && this.expected == expected
      ensures records == [] && stdout == [] && replay.None?
    {
      this.codec, this.expected := codec, expected;
      session := new Session(expected);
      records, protocolSize := [], 0;
      stdout, buffer := [], [];
      writing, clientSize, replay := None, 0, None;
    }

    /** Record one frame; refused when the frame count or the capture size would pass its bound. */
    method Note(direction: Direction, raw: Bytes) returns (ok: bool)
      modifies this`records, this`protocolSize
      ensures ok == (old(|records|) < MAX_FRAMES
                     && old(protocolSize) + codec.recordSize(Record(old(|records|) + 1, direction, raw))
                        <= MAX_CAPTURE - ENVELOPE_ROOM)
      ensures ok ==> records == old(records) + [Record(old(|records|) + 1, direction, raw)]
                     && protocolSize == old(protocolSize) + codec.recordSize(Record(old(|records|) + 1, direction, raw))
      ensures !ok ==> records == old(records)
    {
      var record := Record(|records| + 1, direction, raw);
      protocolSize := protocolSize + codec.recordSize(record);
      ok := |records| < MAX_FRAMES && protocolSize <= MAX_CAPTURE - ENVELOPE_ROOM;
      if ok {
        records := records + [record];
      }
    }

    /** Record a frame and feed what its text parses to: the only way a frame reaches the session. */
    method NoteAndFeed(direction: Direction, raw: Bytes) returns (ok: bool)
      requires Recorded()
      requires direction == Server ==> IsLine(raw)
      requires IsWire(raw)
      modifies this`records, this`protocolSize, session
      ensures ok == Takes(codec, expected, old(records), Record(old(|records|) + 1, direction, raw))
      ensures Run(expected, EventsOf(codec, old(records))).Some?
      ensures ok ==> session.expected == expected && Recorded()
      ensures ok && direction == Server ==> old(session.View().ready) <= session.View().ready
      ensures records == old(records) || records == old(records) + [Record(old(|records|) + 1, direction, raw)]
      ensures ok ==> records != old(records)
      ensures ServerLines(records) == old(ServerLines(records))
           || ServerLines(records) == old(ServerLines(records)) + [raw]
      ensures ok ==> ServerLines(records) == old(ServerLines(records)) + if direction == Server then [raw] else []
      ensures ok ==> ClientSize(records) == old(ClientSize(records)) + if direction == Client then |raw| else 0
    {
      hide Feed;
      hide Finish;
      hide Run;
      hide ServerLines;
      hide ClientSize;
      hide TotalSize;
      hide EventsOf;
      hide IsNext;
      ghost var s := session.View();
      ok := Note(direction, raw);
      Append(codec, expected, old(records), Record(old(|records|) + 1, direction, raw));
      if !ok || codec.parse(raw).None? {
        return false;
      }
      var ev := Event(direction, codec.parse(raw).value);
      ok := session.Feed(ev);
      if ok && direction == Server {
        ServerOnlyAdds(expected, s, ev.frame);
      }
      if ok && replay.Some? {
        FinishIsFinal(expected, codec.parseText, s, ev);
      }
    }

    /** Start writing the next required frame. */
    method BeginWrite() returns (ok: bool)
      requires Valid() && writing.None? && session.ready != []
      modifies this`writing
      ensures Valid()
      ensures var raw := codec.dump(Wire(expected, session.ready[0])) + [NEWLINE];
        && ok == (|raw| <= MAX_LINE && clientSize + |raw| <= MAX_STREAM)
        && writing == if ok then Some(raw) else None
    {
      var raw := codec.dump(Wire(expected, session.ready[0])) + [NEWLINE];
      ok := |raw| <= MAX_LINE && clientSize + |raw| <= MAX_STREAM;
      if ok {
        writing := Some(raw);
      }
    }

    /** The frame being written has left in full: it is recorded and fed as it was written. */
    method CompleteWrite() returns (ok: bool, ghost block: Block)
      requires Valid() && writing.Some?
      modifies this, session
      ensures ok ==> Valid() && writing.None?
      ensures ok ==> records == old(records) + [Record(old(|records|) + 1, Client, old(writing.value))]
      ensures stdout == old(stdout) && replay == old(replay)
      ensures !ok ==> Blocked(block) && block.Refused? && block.record.direction == Client
    {
      hide ValidRecords, Run, Feed, Finish, EventsOf, TotalSize, ServerLines, ClientSize, Flatten, Takes, IsNext;
      var raw := writing.value;
      block := Refused(records, Record(|records| + 1, Client, raw));
      ok := NoteAndFeed(Client, raw);
      if ok {
        clientSize := clientSize + |raw|;
        writing := None;
      }
    }

    /** The next complete line of the buffer is recorded and fed. */
    method TakeLine() returns (ok: bool, ghost block: Block)
      requires Recorded() && Sending() && Divided() && NEWLINE in buffer
      modifies this, session
      ensures ok ==> Recorded() && Sending() && Divided() && |buffer| < old(|buffer|)
      ensures |stdout| <= MAX_STREAM && Flatten(ServerLines(records)) <= stdout
      ensures stdout == old(stdout) && writing == old(writing) && replay == old(replay)
      ensures !ok ==> Blocked(block) && !block.Overflow?
    {
      hide Recorded, Run, Feed, Finish, EventsOf, ServerLines, ClientSize, Takes, IsNext, Wire;
      var i := IndexOf(buffer, NEWLINE);
      var raw := buffer[..i + 1];
      assert stdout == (Flatten(ServerLines(records)) + raw) + buffer[i + 1..];
      buffer := buffer[i + 1..];
      if |raw| > MAX_LINE || !codec.decodes(raw) {
        return false, BadLine(raw);
      }
      ghost var before := session.View();
      block := Refused(records, Record(|records| + 1, Server, raw));
      ok := NoteAndFeed(Server, raw);
      if ok && writing.Some? {
        NextStays(codec, expected, before, session.View(), writing.value);
      }
    }

    /**
     One read from the provider. Its bytes join what was captured up to the bound, and every line they
     complete is recorded and fed in order.
     */
    method Read(data: Bytes) returns (ok: bool, ghost block: Block)
      requires Valid()
      modifies this, session
      ensures ok ==> Valid() && stdout == old(stdout) + data
      ensures |stdout| <= MAX_STREAM && Flatten(ServerLines(records)) <= stdout <= old(stdout) + data
      ensures writing == old(writing) && replay == old(replay)
      ensures !ok ==> Blocked(block) && (block.Overflow? ==> stdout != old(stdout) + data)
    {
      hide Recorded, Run, Feed, Finish, EventsOf, ServerLines, ClientSize, Takes, IsNext, Wire;
      block := Overflow;
      var room := MAX_STREAM - |stdout|;
      if |data| > room {
        stdout := stdout + data[..room];
        return false, Overflow;
      }
      stdout := stdout + data;
      buffer := buffer + data;
      while NEWLINE in buffer
        invariant Recorded() && Sending() && Divided()
        invariant stdout == old(stdout) + data && writing == old(writing) && replay == old(replay)
        decreases |buffer|
      {
        ok, block := TakeLine();
        if !ok {
          return;
        }
      }
      ok := |buffer| <= MAX_LINE;
      block := LongRest;
    }

    /** The first time everything required has been answered, the session is finished and input is closed. */
    method Conclude() returns (ok: bool)
      requires Valid() && replay.None? && Answered(session.View())
      modifies this`replay
      ensures ok == Finish(expected, codec.parseText, session.View()).Some?
      ensures ok ==> Valid() && replay.Some?
    {
      replay := session.Finish(codec.parseText);
      ok := replay.Some?;
    }

    /**
     The provider has exited and both its streams are drained. A completed run's recording, replayed from
     nothing, passes every check on the capture and reaches the verdict the run itself reached.
     */
    method Exit(exitCode: int) returns (completed: bool)
      requires Valid()
      modifies this`replay
      ensures completed == (buffer == [] && old(replay).Some? && exitCode == 0)
      ensures replay == old(replay)
      ensures completed ==> stdout == Flatten(ServerLines(records)) && ServerLines(records) == Lines(stdout)
      ensures completed ==> forall header, size: nat |
                codec.validHeader(header) && size <= protocolSize + ENVELOPE_ROOM ::
                ReplayCapture(codec, expected, Capture(header, records, CLEAN_EXIT, size), stdout) == replay
    {
      hide Run;
      hide Finish;
      hide ServerLines;
      hide Sending;
      if buffer != [] || replay.None? || exitCode != 0 {
        return false;
      }
      replay := session.Finish(codec.parseText);
      DivisionIsUnique(ServerLines(records), []);
      assert Flatten(ServerLines(records)) + [] == stdout;
      assert Replay(codec, expected, records) == replay;
      completed := true;
    }

    /** The channels that became ready in one pass, in any order. */
    method Serve(inputs: seq<Input>) returns (ok: bool, ghost block: Block)
      requires Valid()
      modifies this, session
      ensures ok ==> Valid() && stdout == old(stdout) + OutputOf(inputs) && replay == old(replay)
      ensures !ok ==> && Blocked(block) && stdout <= old(stdout) + OutputOf(inputs)
                      && (block.Overflow? ==> stdout != old(stdout) + OutputOf(inputs))
    {
      hide Valid, Blocked, Run, Feed, Finish, EventsOf, ServerLines, Flatten, TotalSize, Takes;
      ok, block := true, Overflow;
      for i := 0 to |inputs|
        invariant Valid() && stdout == old(stdout) + OutputOf(inputs[..i]) && replay == old(replay) && ok
      {
        assert inputs[..i + 1][..i] == inputs[..i];
        OutputGrows(inputs, i);
        if inputs[i].Output? {
          ok, block := Read(inputs[i].data);
        } else if writing.Some? {
          ok, block := CompleteWrite();
        }
        if !ok {
          return;
        }
      }
      assert inputs[..|inputs|] == inputs;
    }

    /** Why a pass ends before anything is read: the next frame is too long, or what was answered is no session. */
    ghost predicate Hinders(cause: Cause)
      reads this, session
    {
      match cause
      case LongFrame =>
        && session.ready != [] && writing.None? && replay.None?
        && var raw := codec.dump(Wire(expected, session.ready[0])) + [NEWLINE];
           |raw| > 1_048_576 || ClientSize(records) + |raw| > 4_194_304
      case NoVerdict => Answered(session.View()) && Finish(expected, codec.parseText, session.View()).None?
      case _ => false
    }

    /** Each pass first begins to write what is required next, or finishes the session once everything is answered. */
    method Prepare(closed: bool) returns (ok: bool, closes: bool, ghost cause: Cause)
      requires Valid() && closed == replay.Some?
      modifies this`writing, this`replay
      ensures ok ==> Valid() && closes == replay.Some?
      ensures ok && replay.None? ==> !Answered(session.View()) && (session.ready != [] ==> writing.Some?)
      ensures !ok ==> Hinders(cause) && (cause == LongFrame || cause == NoVerdict)
    {
      hide Recorded, ClientSize, IsNext, Divided;
      ok, closes, cause := true, closed, LongFrame;
      if writing.None? && session.ready != [] && !closed {
        ok := BeginWrite();
        if !ok {
          return;
        }
      }
      if session.completed != [] && session.ready == [] && session.pending == map[] && replay.None? {
        ok := Conclude();
        closes, cause := true, NoVerdict;
      }
    }

    /** Why there is no verdict, at the pass where the loop ended. */
    ghost predicate Explains(cause: Cause, turns: seq<Turn>, n: nat)
      requires n <= |turns|
      reads this, session
    {
      && (n == |turns| <==> cause.NeverDrained?)
      && (n < |turns| ==> match cause
          case NeverDrained => false
          case Stopped => turns[n].CutShort?
          case LongFrame => Hinders(cause)
          case NoVerdict => Hinders(cause)
          case Unanswered =>
            turns[n].Drained? && !Answered(session.View()) && (session.ready != [] ==> writing.Some?)
          case BadExit => turns[n].Drained? && (turns[n].exitCode != 0 || buffer != [])
          case Stuck(block) =>
            && turns[n].Ready? && Blocked(block) && stdout <= Produced(turns[..n + 1])
            && (block.Overflow? ==> stdout != Produced(turns[..n + 1])))
    }

    /**
     The main loop, for any passes whatsoever. When it returns a verdict, what it recorded of the server are
     exactly the lines of what the provider wrote, however that was cut into reads; and the capture of the run,
     replayed from nothing, passes every check and gives this very verdict. It ends at the first pass that is not
     one of ready channels, or before; and when it returns no verdict there is a reason.
     */
    method Conduct(turns: seq<Turn>) returns (r: Option<Verdict>, ghost n: nat, ghost cause: Cause)
      requires Valid() && records == [] && stdout == [] && replay.None?
      modifies this, session
      ensures n <= |turns| && forall i | 0 <= i < n :: turns[i].Ready?
      ensures r.Some? ==> stdout == Produced(turns[..n]) && ServerLines(records) == Lines(Produced(turns[..n]))
      ensures r.Some? ==> n < |turns| && turns[n] == Drained(0)
      ensures r.Some? ==> forall header, size: nat |
                codec.validHeader(header) && size <= protocolSize + 65_536 ::
                ReplayCapture(codec, expected, Capture(header, records, CLEAN_EXIT, size), stdout) == r
      ensures r.None? ==> Explains(cause, turns, n)
    {
      hide Recorded, ReplayCapture, ServerLines, ClientSize, Lines, Blocked, Hinders, Takes, IsNext, Run, Feed,
        Finish, EventsOf, Flatten, OutputOf, Wire, Divided, ValidRecords;
      n, cause := 0, NeverDrained;
      var closed, pass := false, 0;
      while pass < |turns|
        invariant pass == n <= |turns| && Valid() && stdout == Produced(turns[..n])
        invariant closed == replay.Some?
        invariant forall i | 0 <= i < n :: turns[i].Ready?
      {
        ProducedNext(turns, n);
        if turns[pass].CutShort? {
          return None, n, Stopped;
        }
        var prepared;
        prepared, closed, cause := Prepare(closed);
        if !prepared {
          return None, n, cause;
        }
        if turns[pass].Drained? {
          var completed := Exit(turns[pass].exitCode);
          return if completed then replay else None, n, if replay.None? then Unanswered else BadExit;
        }
        var served, block := Serve(turns[pass].inputs);
        if !served {
          return None, n, Stuck(block);
        }
        pass, n := pass + 1, n + 1;
      }
      r, cause := None, NeverDrained;
    }
  }
}
