/**
 `run_capture` step by step. Foreign code (the clock, the files, the servers, the source client, an operator at
 the keyboard) is left free to answer anything at each of its calls.
 */
module CanaryRuns {
  import opened Wrappers
  import opened Texts
  import opened Canary
  import CaptureStream

  /** How a step of the `try` block ends. */
  datatype Ended = Went | Stopped(failure: Failure) {
    predicate IsFailure() {
      Stopped?
    }

    function PropagateFailure(): Ended
      requires Stopped?
    {
      this
    }
  }

  function Require(condition: bool, code: string): Ended {
    if condition then Went else Stopped(ValueError(code))
  }

  /** What a page says of itself, and what the checks find of its bank, its time and its payload. */
  datatype Page = Page(complete: bool, hasNextField: bool, next: Option<string>,
                       identified: bool, timely: bool, secret: bool)

  /** What a call of the source client asks for. */
  datatype Step =
    | Capabilities
    | Catalog(branch: nat, cursor: Option<string>)
    | Resolution
    | Articles(cursor: Option<string>)
    | Read(ref: string)

  /** A call that was made, and the page that it brings if it succeeds. */
  datatype Call = Call(step: Step, page: Page)

  /** The page comes from the right bank and revision, at a time within the window. */
  predicate IsValidated(call: Call) {
    call.page.identified && call.page.timely
  }

  /** The list that is paged: a branch of the catalog, or the articles of the vehicle. */
  datatype Listing = Branch(n: nat) | ArticleList

  function Asking(listing: Listing, cursor: Option<string>): Step {
    if listing.Branch? then Catalog(listing.n, cursor) else Articles(cursor)
  }

  /** The page names a next one, and that is what is asked for. */
  predicate LeadsOn(listing: Listing, page: Page, step: Step) {
    !page.complete && page.next !in {None, Some("")} && step == Asking(listing, page.next)
  }

  /** The first call asks without a cursor, each later one with the new, nonempty cursor of the page before it. */
  ghost predicate FollowsCursors(listing: Listing, walk: seq<Call>) {
    && |walk| <= 10 && (walk != [] ==> walk[0].step == Asking(listing, None))
    && (forall i, j | 0 <= i < j < |walk| && j == i + 1 :: LeadsOn(listing, walk[i].page, walk[j].step))
    && (forall i, j | 0 <= i < j < |walk| :: walk[i].step != walk[j].step)
  }

  /** It goes on until a page says that it is the last, and names no next one. */
  ghost predicate CompleteWalk(listing: Listing, walk: seq<Call>) {
    && FollowsCursors(listing, walk) && walk != []
    && walk[|walk| - 1].page.complete && !walk[|walk| - 1].page.hasNextField
    && forall call | call in walk :: IsValidated(call)
  }

  /** The calls of a walk are for its own list, with no cursor or one of these. */
  ghost predicate Asked(listing: Listing, walk: seq<Call>, seen: set<string>) {
    forall call | call in walk :: call.step == Asking(listing, None)
      || exists c | c in seen :: call.step == Asking(listing, Some(c))
  }

  /** The cursor that a walk goes on with, which it has not asked for yet. */
  ghost predicate IsNext(listing: Listing, walk: seq<Call>, cursor: Option<string>) {
    && (forall call | call in walk :: call.step != Asking(listing, cursor))
    && if walk == [] then cursor == None
       else !walk[|walk| - 1].page.complete && cursor == walk[|walk| - 1].page.next && cursor !in {None, Some("")}
  }

  function Together(walks: seq<seq<Call>>): seq<Call> {
    if walks == [] then [] else Together(walks[..|walks| - 1]) + walks[|walks| - 1]
  }

  lemma TogetherGrows(walks: seq<seq<Call>>, walk: seq<Call>)
    ensures Together(walks + [walk]) == Together(walks) + walk
  {
    assert (walks + [walk])[..|walks|] == walks;
  }

  /** The calls of one bank that went through, part by part. */
  datatype Graph = Graph(capabilities: Call, branches: seq<seq<Call>>, listed: seq<Call>, resources: seq<Call>)

  function CallsOf(g: Graph): seq<Call> {
    [g.capabilities] + Together(g.branches) + g.listed + g.resources
  }

  /** The vehicle is resolved, then its articles are listed to the last page. */
  ghost predicate ListsArticles(calls: seq<Call>) {
    calls != [] && calls[0].step == Resolution && IsValidated(calls[0]) && CompleteWalk(ArticleList, calls[1..])
  }

  ghost predicate LeadsToArticle(g: Graph) {
    && g.capabilities.step == Capabilities && IsValidated(g.capabilities) && ListsArticles(g.listed)
    && |g.branches| == 4
    && (forall i | 0 <= i < |g.branches| :: CompleteWalk(Branch(i), g.branches[i]))
  }

  ghost predicate ReadsEach(calls: seq<Call>, refs: seq<string>) {
    |calls| == |refs| && forall i | 0 <= i < |calls| ::
      calls[i].step == Read(refs[i]) && IsValidated(calls[i]) && !calls[i].page.secret
  }

  /**
   The finite graph of one bank: the capabilities, each catalog branch to its last page, the vehicle, its article
   list to the last page, and then each of these references once; and no other call.
   */
  ghost predicate Inspected(calls: seq<Call>, refs: seq<string>) {
    exists g :: LeadsToArticle(g) && ReadsEach(g.resources, refs) && calls == CallsOf(g)
  }

  ghost predicate ReachesArticle(calls: seq<Call>) {
    exists g :: LeadsToArticle(g) && g.resources == [] && calls == CallsOf(g)
  }

  lemma ArticleReached(first: Call, branches: seq<seq<Call>>, listed: seq<Call>)
    requires first.step == Capabilities && IsValidated(first) && ListsArticles(listed)
    requires |branches| == CATALOG_BRANCHES && forall i | 0 <= i < |branches| :: CompleteWalk(Branch(i), branches[i])
    ensures ReachesArticle([first] + Together(branches) + listed)
  {
    hide CompleteWalk, Together, ListsArticles;
    var g := Graph(first, branches, listed, []);
    assert LeadsToArticle(g) && [first] + Together(branches) + listed == CallsOf(g);
  }

  lemma ReadingCompletes(calls: seq<Call>, reading: seq<Call>, refs: seq<string>)
    requires ReachesArticle(calls) && ReadsEach(reading, refs)
    ensures Inspected(calls + reading, refs)
  {
    var g :| LeadsToArticle(g) && g.resources == [] && calls == CallsOf(g);
    assert calls + reading == CallsOf(g.(resources := reading));
    assert LeadsToArticle(g.(resources := reading));
  }

  lemma OneMoreCall(listing: Listing, walk: seq<Call>, seen: set<string>, cursor: Option<string>, call: Call)
    requires FollowsCursors(listing, walk) && |walk| < PAGES && Asked(listing, walk, seen)
    requires IsNext(listing, walk, cursor) && (cursor.Some? ==> cursor.value in seen)
    requires call.step == Asking(listing, cursor)
    ensures FollowsCursors(listing, walk + [call]) && Asked(listing, walk + [call], seen)
  {
    var more := walk + [call];
    assert more[|walk|] == call && forall i | 0 <= i < |walk| :: more[i] == walk[i] && walk[i] in walk;
    hide LeadsOn;
    forall i, j | 0 <= i < j < |more| && j == i + 1
      ensures LeadsOn(listing, more[i].page, more[j].step)
    {
      if j < |walk| {
        assert LeadsOn(listing, walk[i].page, walk[j].step);
      } else {
        assert more[i] == walk[|walk| - 1] && more[j] == call;
        NextIsAsked(listing, walk, cursor, call);
      }
    }
  }

  lemma NextIsAsked(listing: Listing, walk: seq<Call>, cursor: Option<string>, call: Call)
    requires walk != [] && IsNext(listing, walk, cursor) && call.step == Asking(listing, cursor)
    ensures LeadsOn(listing, walk[|walk| - 1].page, call.step)
  {
  }

  lemma NextIsNew(listing: Listing, walk: seq<Call>, seen: set<string>, following: Option<string>)
    requires Asked(listing, walk, seen) && walk != []
    requires !walk[|walk| - 1].page.complete && following == walk[|walk| - 1].page.next
    requires following.Some? && following.value != "" && following.value !in seen
    ensures IsNext(listing, walk, following) && Asked(listing, walk, seen + {following.value})
  {
  }

  function Later(a: real, b: real): real {
    if a < b then b else a
  }

  function Sooner(a: real, b: real): real {
    if a < b then a else b
  }

  /** All the code that is not this run's own; what goes wrong in it is counted. */
  class World {
    ghost var troubles: nat

    constructor ()
      ensures troubles == 0
    {
      troubles := 0;
    }

    /** Any foreign code: it may return, or raise anything. */
    method Act() returns (r: Ended)
      modifies this
      ensures troubles == old(troubles) + if r.Went? then 0 else 1
    {
      r := *;
      troubles := troubles + if r.Went? then 0 else 1;
    }

    /** Something outside is as it was asked for, or it is not. */
    method Comply() returns (complies: bool)
      modifies this
      ensures troubles == old(troubles) + if complies then 0 else 1
    {
      complies := *;
      troubles := troubles + if complies then 0 else 1;
    }
  }

  // ---------------------------------------------------------------- why a bank stops

  /** The answer was read to its declared length or, without one, to where the server ended it. */
  ghost predicate IsWhole(replies: nat -> CaptureStream.ReadResult, declared: Option<nat>, size: nat) {
    exists n: nat | CaptureStream.ReadTo(replies, n, size) ::
      if declared.Some? then size == declared.value else replies(n) == CaptureStream.Chunk([])
  }

  /** The answer broke off: an error, a chunk that is none, another length than declared, or no allowance left. */
  ghost predicate BreaksOff(code: string, replies: nat -> CaptureStream.ReadResult, declared: Option<nat>, size: nat,
                            allowance: int) {
    exists n: nat | CaptureStream.ReadTo(replies, n, size) ::
      || (code == "READ" && replies(n).ReadError?)
      || (code == "TRANSPORT_PROTOCOL" && (|| replies(n).NotBytes?
                                           || (replies(n).Chunk? && (|| |replies(n).bytes| > 65536
                                                                     || size + |replies(n).bytes| > allowance))))
      || (code == "FRAMING" && declared.Some? && size != declared.value)
      || (code == "BYTE_LIMIT" && declared != Some(size) && size >= allowance)
  }

  /** The step that asks for another page of the same list. */
  function Onward(step: Step, cursor: Option<string>): Step {
    match step
    case Catalog(branch, _) => Catalog(branch, cursor)
    case Articles(_) => Articles(cursor)
    case _ => step
  }

  /** The last call brought a page that is refused, and this is the code for it. */
  ghost predicate IsFlaw(f: Failure, calls: seq<Call>) {
    && calls != []
    && var call := calls[|calls| - 1];
    || (f == ValueError("IDENTITY") && !call.page.identified)
    || (f == ValueError("FETCHED_AT") && !call.page.timely)
    || (f == Coded("SECRET_INCIDENT") && call.step.Read? && call.page.secret)
    || (f == ValueError("PAGINATION") && (call.step.Catalog? || call.step.Articles?)
        && if call.page.complete then call.page.hasNextField
           else || call.page.next in {None, Some("")}
                || exists earlier | earlier in calls :: earlier.step == Onward(call.step, call.page.next))
    || (f == ValueError("PAGE_LIMIT") && IsTenth(calls) && !call.page.complete)
  }

  /** The last ten calls are for one list. */
  ghost predicate IsTenth(calls: seq<Call>) {
    |calls| >= 10 && var last := calls[|calls| - 10..]; exists listing :: AreFor(listing, last)
  }

  ghost predicate AreFor(listing: Listing, calls: seq<Call>) {
    forall call | call in calls :: IsFor(listing, call.step)
  }

  predicate IsFor(listing: Listing, step: Step) {
    if listing.Branch? then step.Catalog? && step.branch == listing.n else step.Articles?
  }

  /** The cursors seen in a walk have been asked for, but for the one that is next. */
  ghost predicate AreKnown(listing: Listing, walk: seq<Call>, seen: set<string>, cursor: Option<string>) {
    forall c | c in seen :: Some(c) == cursor || exists call | call in walk :: call.step == Asking(listing, Some(c))
  }

  lemma KnownGrows(listing: Listing, walk: seq<Call>, seen: set<string>, cursor: Option<string>, call: Call)
    requires AreKnown(listing, walk, seen, cursor) && call.step == Asking(listing, cursor)
    ensures forall c | c in seen ::
      exists earlier | earlier in walk + [call] :: earlier.step == Asking(listing, Some(c))
    ensures forall next: string :: AreKnown(listing, walk + [call], seen + {next}, Some(next))
  {
    assert call in walk + [call];
    forall c | c in seen
      ensures exists earlier | earlier in walk + [call] :: earlier.step == Asking(listing, Some(c))
    {
      if Some(c) != cursor {
        var earlier :| earlier in walk && earlier.step == Asking(listing, Some(c));
        assert earlier in walk + [call];
      }
    }
  }

  /** A page of a walk that is refused for its paging. */
  lemma PagingIsFlaw(calls: seq<Call>, listing: Listing, walk: seq<Call>, seen: set<string>, cursor: Option<string>,
                     call: Call)
    requires AreKnown(listing, walk, seen, cursor) && call.step == Asking(listing, cursor)
    requires |calls| > |walk| && calls[|calls| - |walk| - 1..] == walk + [call]
    requires if call.page.complete then call.page.hasNextField
             else call.page.next in {None, Some("")} || call.page.next.value in seen || call.page.next == cursor
    ensures IsFlaw(ValueError("PAGINATION"), calls)
  {
    var rest := calls[|calls| - |walk| - 1..];
    assert rest == walk + [call] && calls[|calls| - 1] == rest[|walk|] == call;
    KnownGrows(listing, walk, seen, cursor, call);
    if !call.page.complete && call.page.next !in {None, Some("")} {
      var earlier: Call := call;
      if call.page.next != cursor {
        earlier :| earlier in walk + [call] && earlier.step == Asking(listing, call.page.next);
      }
      assert earlier in rest && earlier.step == Onward(call.step, call.page.next);
    }
  }

  /** Ten pages, and none of them the last. */
  lemma TenthIsFlaw(calls: seq<Call>, listing: Listing, walk: seq<Call>, seen: set<string>)
    requires |walk| == 10 <= |calls| && walk == calls[|calls| - 10..] && Asked(listing, walk, seen)
    requires !walk[9].page.complete
    ensures IsFlaw(ValueError("PAGE_LIMIT"), calls)
  {
    assert calls[|calls| - 1] == walk[9];
    assert AreFor(listing, calls[|calls| - 10..]);
  }

  /** A walk that has to go on: its calls, the cursors seen, and the one that is next. */
  ghost predicate Walking(listing: Listing, walk: seq<Call>, seen: set<string>, cursor: Option<string>) {
    && FollowsCursors(listing, walk) && Asked(listing, walk, seen) && IsNext(listing, walk, cursor)
    && AreKnown(listing, walk, seen, cursor) && (cursor.Some? ==> cursor.value in seen)
    && (forall call | call in walk :: IsValidated(call)) && (walk != [] ==> !walk[|walk| - 1].page.complete)
  }

  lemma WalkStarts(listing: Listing)
    ensures Walking(listing, [], {}, None)
  {
  }

  predicate IsUseful(page: Page, seen: set<string>, cursor: Option<string>) {
    page.next.Some? && page.next.value != "" && page.next.value !in seen && page.next != cursor
  }

  /** What one more call makes of a walk. */
  lemma WalkContinues(calls: seq<Call>, listing: Listing, walk: seq<Call>, seen: set<string>, cursor: Option<string>,
                      call: Call)
    requires Walking(listing, walk, seen, cursor) && |walk| < PAGES && call.step == Asking(listing, cursor)
    requires |calls| > |walk| && calls[|calls| - |walk| - 1..] == walk + [call]
    ensures FollowsCursors(listing, walk + [call])
    ensures call.page.complete && call.page.hasNextField ==> IsFlaw(ValueError("PAGINATION"), calls)
    ensures call.page.complete && !call.page.hasNextField && IsValidated(call) ==> CompleteWalk(listing, walk + [call])
    ensures !call.page.complete && !IsUseful(call.page, seen, cursor) ==> IsFlaw(ValueError("PAGINATION"), calls)
    ensures !call.page.complete && IsUseful(call.page, seen, cursor) && IsValidated(call) ==>
      Walking(listing, walk + [call], seen + {call.page.next.value}, call.page.next)
  {
    hide IsFlaw, FollowsCursors;
    OneMoreCall(listing, walk, seen, cursor, call);
    KnownGrows(listing, walk, seen, cursor, call);
    if call.page.complete {
      if call.page.hasNextField {
        PagingIsFlaw(calls, listing, walk, seen, cursor, call);
      }
    } else if !IsUseful(call.page, seen, cursor) {
      PagingIsFlaw(calls, listing, walk, seen, cursor, call);
    } else {
      NextIsNew(listing, walk + [call], seen, call.page.next);
    }
  }

  /** After ten pages none of which was the last. */
  lemma WalkIsTooLong(calls: seq<Call>, listing: Listing, walk: seq<Call>, seen: set<string>, cursor: Option<string>)
    requires Walking(listing, walk, seen, cursor) && |walk| == 10 <= |calls| && calls[|calls| - 10..] == walk
    ensures IsFlaw(ValueError("PAGE_LIMIT"), calls)
  {
    hide IsFlaw;
    TenthIsFlaw(calls, listing, walk, seen);
  }

  lemma WalkFollows(listing: Listing, walk: seq<Call>, seen: set<string>, cursor: Option<string>)
    requires Walking(listing, walk, seen, cursor)
    ensures FollowsCursors(listing, walk)
  {
  }

  class Row {
    const required: nat
    var state: RowState
    var stopCode: Option<string>
    var attempted: Counters
    var successful: Counters
    var coverage: seq<string>

    constructor (required: nat)
      ensures this.required == required && state == PendingState && stopCode.None? && coverage == []
      ensures attempted == successful == Counters(0, 0, 0)
    {
      this.required := required;
      state, stopCode, coverage := PendingState, None, [];
      attempted, successful := Counters(0, 0, 0), Counters(0, 0, 0);
    }

    function Summary(): Line
      reads this
    {
      Line(state, stopCode, Counters(0, 1, required), attempted, successful)
    }

    /** The row may be published at any moment of the run. */
    predicate Sound()
      reads this
    {
      ValidLine(Summary())
    }
  }

  /** Starts at least a second apart, each admitted earlier and before the limit. */
  ghost predicate Paced(starts: seq<real>, admitted: seq<real>, limit: real) {
    && |starts| == |admitted|
    && (forall i | 0 < i < |starts| :: starts[i] >= starts[i - 1] + 1.0)
    && (forall i | 0 <= i < |starts| :: admitted[i] <= starts[i] && admitted[i] < limit)
  }

  lemma OneMoreStart(starts: seq<real>, admitted: seq<real>, limit: real, start: real, admission: real)
    requires Paced(starts, admitted, limit) && admission <= start && admission < limit
    requires starts == [] || starts[|starts| - 1] + START_INTERVAL <= start
    ensures Paced(starts + [start], admitted + [admission], limit)
  {
  }

  /** A bank that was begun: its first request, and the clock when it began. */
  datatype BankTime = BankTime(first: nat, start: real)

  function Deadline(bank: BankTime, runStart: real): real {
    if bank.start + 900.0 < runStart + 1790.0 then bank.start + 900.0 else runStart + 1790.0
  }

  /** Every request belongs to a bank and was admitted before the deadline of that bank. */
  ghost predicate Timely(admitted: seq<real>, banks: seq<BankTime>, runStart: real) {
    && (if banks == [] then admitted == [] else banks[0].first == 0)
    && (forall b | 0 <= b < |banks| :: banks[b].first <= |admitted|)
    && (forall b, i | 0 <= b < |banks| && 0 <= i < |admitted| && IsOfBank(banks, b, i) ::
          admitted[i] < Deadline(banks[b], runStart))
  }

  /** Request i falls between the first of bank b and the first of the bank after it. */
  predicate IsOfBank(banks: seq<BankTime>, b: nat, i: nat)
    requires b < |banks|
  {
    banks[b].first <= i && (b + 1 < |banks| ==> i < banks[b + 1].first)
  }

  lemma OneMoreAdmission(admitted: seq<real>, banks: seq<BankTime>, runStart: real, admission: real)
    requires Timely(admitted, banks, runStart) && banks != []
    requires admission < Deadline(banks[|banks| - 1], runStart)
    ensures Timely(admitted + [admission], banks, runStart)
  {
    var more := admitted + [admission];
    assert forall b | 0 <= b < |banks| :: banks[b].first <= |admitted|;
    forall b, i | 0 <= b < |banks| && 0 <= i < |more| && IsOfBank(banks, b, i)
      ensures more[i] < Deadline(banks[b], runStart)
    {
      if i < |admitted| {
        assert more[i] == admitted[i];
      }
    }
  }

  lemma OneMoreBank(admitted: seq<real>, banks: seq<BankTime>, runStart: real, start: real)
    requires Timely(admitted, banks, runStart)
    ensures Timely(admitted, banks + [BankTime(|admitted|, start)], runStart)
  {
    var more := banks + [BankTime(|admitted|, start)];
    forall b, i | 0 <= b < |more| && 0 <= i < |admitted| && IsOfBank(more, b, i)
      ensures admitted[i] < Deadline(more[b], runStart)
    {
      if b < |banks| {
        assert more[b] == banks[b] && (b + 1 < |banks| ==> more[b + 1] == banks[b + 1]);
        assert IsOfBank(banks, b, i);
      }
    }
  }

  /** The stop code that a failure gives. */
  ghost predicate Stops(failure: Failure, code: string) {
    match failure
    case Interrupt => code == "CANCELLED"
    case OutputError => code == "OUTPUT_FAILURE"
    case Other => code == "TRANSPORT"
    case Coded(text) => code == if text in STOP_CODES then text else "VALIDATION"
    case ValueError(text) => code == if text in STOP_CODES then text else "VALIDATION"
  }

  /** Nine codes leave a bank incomplete, all others failed. */
  ghost predicate LeavesAs(code: string, state: RowState) {
    state == if code in {"DEADLINE", "BYTE_LIMIT", "PAGE_LIMIT", "OUTPUT_FAILURE", "CONNECT_TLS", "DNS", "TLS",
                         "CONNECT", "READ"}
             then Incomplete else Failed
  }

  /** Five codes concern the next bank as well. */
  ghost predicate ConcernsAll(code: string) {
    code in {"SECRET_INCIDENT", "OUTPUT_FAILURE", "CLEANUP", "CANCELLED", "INSPECTION_FAILURE"}
  }

  /** A row closed for a failure: its code and state, passed on if it concerns the next bank, or a log that failed. */
  ghost predicate ClosedFor(failure: Failure, state: RowState, stopCode: Option<string>, shared: Option<string>) {
    || (stopCode == shared == Some("OUTPUT_FAILURE") && state == Incomplete)
    || (&& stopCode.Some? && Stops(failure, stopCode.value) && LeavesAs(stopCode.value, state)
        && shared == if ConcernsAll(stopCode.value) then stopCode else None)
  }

  lemma CodesAreExact(f: Failure)
    ensures forall code :: Stops(f, code) <==> code == StopCode(f)
    ensures "OUTPUT_FAILURE" in STOP_CODES && "CANCELLED" in STOP_CODES && "TRANSPORT" in STOP_CODES
  {
  }

  lemma StatesAreExact(code: string)
    ensures LeavesAs(code, StateAfter(code)) && (ConcernsAll(code) <==> IsShared(code))
  {
  }

  /** The bytes that requests `first` up to `end` put on disk. */
  function BytesBetween(sizes: seq<nat>, first: nat, end: nat): nat {
    if end <= first || end > |sizes| then 0 else BytesBetween(sizes, first, end - 1) + sizes[end - 1]
  }

  function BankBytes(sizes: seq<nat>, banks: seq<BankTime>, b: nat): nat
    requires b < |banks|
  {
    BytesBetween(sizes, banks[b].first, if b + 1 < |banks| then banks[b + 1].first else |sizes|)
  }

  /** No request and no bank puts more on disk than it may, and `stored` is what the present bank has put there. */
  ghost predicate Bounded(sizes: seq<nat>, banks: seq<BankTime>, stored: nat) {
    && (forall size | size in sizes :: size <= 20_000_000)
    && (forall b | 0 <= b < |banks| :: banks[b].first <= |sizes| && BankBytes(sizes, banks, b) <= 100_000_000)
    && stored == if banks == [] then 0 else BankBytes(sizes, banks, |banks| - 1)
  }

  lemma {:induction false} BytesOfPrefix(sizes: seq<nat>, size: nat, first: nat, end: nat)
    requires end <= |sizes|
    ensures BytesBetween(sizes + [size], first, end) == BytesBetween(sizes, first, end)
    decreases end
  {
    if first < end {
      BytesOfPrefix(sizes, size, first, end - 1);
    }
  }

  lemma OneMoreSize(sizes: seq<nat>, banks: seq<BankTime>, stored: nat, size: nat)
    requires Bounded(sizes, banks, stored) && banks != []
    requires size <= RESPONSE_BYTES && stored + size <= BANK_BYTES
    ensures Bounded(sizes + [size], banks, stored + size)
  {
    hide BytesBetween;
    var more := sizes + [size];
    forall b | 0 <= b < |banks|
      ensures banks[b].first <= |more|
      ensures BankBytes(more, banks, b) == BankBytes(sizes, banks, b) + if b == |banks| - 1 then size else 0
    {
      if b + 1 < |banks| {
        assert banks[b + 1].first <= |sizes|;
        BytesOfPrefix(sizes, size, banks[b].first, banks[b + 1].first);
      } else {
        BytesOfPrefix(sizes, size, banks[b].first, |sizes|);
        BytesUnfold(more, banks[b].first, |more|);
      }
    }
  }

  lemma BytesUnfold(sizes: seq<nat>, first: nat, end: nat)
    requires end <= |sizes|
    ensures BytesBetween(sizes, first, end)
         == if end <= first then 0 else BytesBetween(sizes, first, end - 1) + sizes[end - 1]
  {
  }

  lemma NextBankIsBounded(sizes: seq<nat>, banks: seq<BankTime>, stored: nat, start: real)
    requires Bounded(sizes, banks, stored)
    ensures Bounded(sizes, banks + [BankTime(|sizes|, start)], 0)
  {
    hide BytesBetween;
    var more := banks + [BankTime(|sizes|, start)];
    BytesUnfold(sizes, |sizes|, |sizes|);
    forall b | 0 <= b < |more|
      ensures more[b].first <= |sizes| && BankBytes(sizes, more, b) <= BANK_BYTES
    {
      if b < |banks| {
        assert BankBytes(sizes, more, b) == BankBytes(sizes, banks, b);
      }
    }
  }

  class CanaryRun {
    const runStart: real
    /** What the servers answer: the reads of the n-th request of the run. */
    const streams: nat -> nat -> CaptureStream.ReadResult
    /** The length that the n-th answer declares, if it does. */
    const lengths: nat -> Option<nat>
    const world: World
    var now: real
    var total: nat
    var lastStart: Option<real>
    var bankBytes: nat
    var shared: Option<string>

    /** When each request was admitted, when it started, and how much of its answer was put on disk. */
    ghost var admitted: seq<real>
    ghost var starts: seq<real>
    ghost var sizes: seq<nat>
    /** The banks that were begun, and all the bytes that the present one has put on disk. */
    ghost var banks: seq<BankTime>
    ghost var stored: nat
    /** How each bank ended that was begun: by a failure, or by none. */
    ghost var ends: seq<Option<Failure>>
    /** The calls of the source client: those of the present bank, and before them those of each earlier one. */
    ghost var calls: seq<Call>
    ghost var earlier: seq<seq<Call>>
    ghost var guardFired: bool

    ghost predicate Valid()
      reads this
    {
      && Paced(starts, admitted, runStart + RUN_SECONDS) && total == |starts| == |admitted| <= GLOBAL_REQUESTS
      && |sizes| == total && Bounded(sizes, banks, stored)
      && Timely(admitted, banks, runStart)
      && lastStart == (if starts == [] then None else Some(starts[|starts| - 1]))
      && (lastStart.Some? ==> lastStart.value <= now) && (banks != [] ==> banks[|banks| - 1].start <= now)
      && bankBytes <= stored <= BANK_BYTES && |earlier| == if banks == [] then 0 else |banks| - 1
    }

    /** The calls of each bank that was begun. */
    ghost function Calls(): (all: seq<seq<Call>>)
      reads this
      requires Valid()
      ensures |all| == |banks|
    {
      if banks == [] then [] else earlier + [calls]
    }

    /** The deadline of the bank that is being run. */
    ghost predicate IsDeadline(deadline: real)
      reads this`banks
    {
      banks != [] && deadline == Deadline(banks[|banks| - 1], runStart)
    }

    /** Of the last answer so far: it was captured whole. */
    ghost predicate IsCaptured()
      reads this
    {
      0 < total <= |sizes| && IsWhole(streams(total - 1), lengths(total - 1), sizes[total - 1])
    }

    /** Of the last answer so far: it broke off, and this is the failure it gives. */
    ghost predicate IsCutOff(f: Failure)
      reads this
    {
      && f.Coded? && 0 < total <= |sizes|
      && BreaksOff(f.code, streams(total - 1), lengths(total - 1), sizes[total - 1],
                   CaptureStream.Least(20_000_000, 100_000_000 - stored + sizes[total - 1]))
    }

    /**
     Why a bank stops: something outside went wrong since then; the deadline is over; the bytes are used up; the last
     answer broke off; or the page of the last call is refused.
     */
    ghost predicate Explains(f: Failure, since: nat, deadline: real)
      reads this, world
    {
      || world.troubles > since
      || (f == ValueError("DEADLINE") && now >= deadline)
      || (f == ValueError("BYTE_LIMIT") && bankBytes >= 100_000_000)
      || IsCutOff(f) || IsFlaw(f, calls)
    }

    constructor (now: real, streams: nat -> nat -> CaptureStream.ReadResult, lengths: nat -> Option<nat>)
      ensures fresh(world)
      ensures Valid() && runStart == now == this.now && total == 0 && shared.None? && !guardFired
      ensures bankBytes == stored == 0 && banks == [] && calls == [] && ends == []
    {
      runStart, this.now, this.streams, this.lengths := now, now, streams, lengths;
      world := new World();
      total, lastStart, bankBytes, shared := 0, None, 0, None;
      admitted, starts, sizes, banks, stored, guardFired := [], [], [], [], 0, false;
      calls, earlier, ends := [], [], [];
    }

    /** The clock never runs backwards. */
    method Now() returns (t: real)
      requires Valid()
      modifies this`now
      ensures Valid() && t == now >= old(now)
    {
      hide Paced, Timely, Bounded;
      var passed: real := *;
      now := Later(now, passed);
      t := now;
    }

    /** Sleeping takes at least as long as asked. */
    method Sleep(seconds: real)
      requires Valid() && seconds >= 0.0
      modifies this`now
      ensures Valid() && now >= old(now) + seconds
    {
      hide Paced, Timely, Bounded;
      now := now + seconds;
      var _ := Now();
    }

    /**
     One request: admitted before the deadline and within the budgets, started at least a second after the
     one before, and stored within what is left of the bank's bytes.
     */
    method OpenRequest(row: Row, deadline: real, matches: bool) returns (r: Ended)
      requires Valid() && row.Sound() && stored == bankBytes && IsDeadline(deadline)
      modifies this`now, this`total, this`lastStart, this`bankBytes, this`admitted, this`starts, this`sizes, this`stored
      modifies this`guardFired, row`attempted, world
      ensures Valid() && row.Sound() && world.troubles >= old(world.troubles)
      ensures r.Went? ==> world.troubles == old(world.troubles) && IsCaptured()
      ensures r.Stopped? ==>
        || Explains(r.failure, old(world.troubles), deadline) || (!matches && r.failure == ValueError("GRAPH"))
        || (r.failure == ValueError("REQUEST_LIMIT")
            && (old(row.attempted.requests) >= BANK_REQUESTS || old(total) >= GLOBAL_REQUESTS))
      ensures row.attempted == old(row.attempted).(requests := row.attempted.requests)
      ensures row.attempted.requests - old(row.attempted.requests) == total - old(total)
      ensures old(total) <= total <= old(total) + 1 && (r.Went? ==> total == old(total) + 1)
      ensures !matches ==> r.Stopped? && total == old(total)
      ensures total > old(total) ==> admitted[old(total)] < deadline && bankBytes - old(bankBytes) <= RESPONSE_BYTES
      ensures r.Went? ==> stored == bankBytes
      ensures old(guardFired) ==> guardFired
      ensures guardFired ==>
        old(guardFired) || old(row.attempted.requests) >= BANK_REQUESTS || old(total) >= GLOBAL_REQUESTS
    {
      hide Paced, Timely, IsAllowed, Bounded, IsFlaw, IsCutOff, IsCaptured;
      var t := Now();
      :- Require(t < deadline, "DEADLINE");
      if lastStart.Some? {
        t := Now();
        Sleep(Later(0.0, lastStart.value + START_INTERVAL - t));
      }
      t := Now();
      :- Require(t < deadline, "DEADLINE");
      guardFired := guardFired || !(row.attempted.requests < BANK_REQUESTS && total < GLOBAL_REQUESTS);
      :- Require(row.attempted.requests < BANK_REQUESTS && total < GLOBAL_REQUESTS, "REQUEST_LIMIT");
      :- Require(bankBytes < BANK_BYTES, "BYTE_LIMIT");
      :- Require(matches, "GRAPH");
      r := Transfer(row, t);
    }

    /** A request counts, and starts, before anything is sent. */
    method Count(row: Row, ghost admission: real)
      requires Valid() && row.Sound()
      requires row.attempted.requests < BANK_REQUESTS && total < GLOBAL_REQUESTS
      requires lastStart.Some? ==> lastStart.value + START_INTERVAL <= now
      requires admission <= now && banks != [] && admission < Deadline(banks[|banks| - 1], runStart)
      modifies this`now, this`total, this`lastStart, this`admitted, this`starts, this`sizes, row`attempted
      ensures Valid() && row.Sound() && total == old(total) + 1 && admitted == old(admitted) + [admission]
      ensures sizes == old(sizes) + [0]
      ensures row.attempted == old(row.attempted).(requests := old(row.attempted.requests) + 1)
    {
      hide Paced, Timely, IsAllowed, Bounded;
      row.attempted := row.attempted.(requests := row.attempted.requests + 1);
      var moment: real := *;
      now := Later(now, moment);
      total, lastStart := total + 1, Some(now);
      OneMoreStart(starts, admitted, runStart + RUN_SECONDS, now, admission);
      OneMoreAdmission(admitted, banks, runStart, admission);
      OneMoreSize(sizes, banks, stored, 0);
      starts, admitted, sizes := starts + [now], admitted + [admission], sizes + [0];
    }

    /** The request itself: counted first, then logged, sent and captured, whatever happens. */
    method Transfer(row: Row, ghost admission: real) returns (r: Ended)
      requires Valid() && row.Sound() && stored == bankBytes < BANK_BYTES
      requires row.attempted.requests < BANK_REQUESTS && total < GLOBAL_REQUESTS
      requires lastStart.Some? ==> lastStart.value + START_INTERVAL <= now
      requires admission <= now && banks != [] && admission < Deadline(banks[|banks| - 1], runStart)
      modifies this`now, this`total, this`lastStart, this`bankBytes, this`admitted, this`starts, this`sizes, this`stored
      modifies row`attempted, world
      ensures Valid() && row.Sound() && total == old(total) + 1 && admitted == old(admitted) + [admission]
      ensures row.attempted == old(row.attempted).(requests := old(row.attempted.requests) + 1)
      ensures world.troubles >= old(world.troubles)
      ensures r.Went? ==> world.troubles == old(world.troubles) && IsCaptured()
      ensures r.Stopped? ==> world.troubles > old(world.troubles) || IsCutOff(r.failure)
      ensures sizes[..old(total)] == old(sizes) && bankBytes - old(bankBytes) <= RESPONSE_BYTES
      ensures r.Went? ==> stored == bankBytes
    {
      hide Paced, Timely, IsAllowed, Deadline, Bounded, BreaksOff, IsWhole, CaptureStream.ReadTo;
      ghost var before := sizes;
      var answers, declared := streams(total), lengths(total);
      Count(row, admission);
      :- world.Act();
      var allowance := CaptureStream.Least(RESPONSE_BYTES, BANK_BYTES - bankBytes);
      var captured: nat;
      captured, r := Capture(answers, declared, allowance);
      OneMoreSize(before, banks, stored, captured);
      stored, sizes := stored + captured, before + [captured];
      :- TakeIn(captured, r.Went?);
    }

    /** The `finally` block: take the capture into the inventory, add its bytes, log it. */
    method TakeIn(captured: nat, returned: bool) returns (r: Ended)
      requires Valid() && bankBytes + captured <= stored
      modifies this`bankBytes, world
      ensures Valid() && old(bankBytes) <= bankBytes <= old(bankBytes) + captured
      ensures r.Went? && returned ==> bankBytes == old(bankBytes) + captured
      ensures world.troubles == old(world.troubles) + if r.Went? then 0 else 1
    {
      hide Paced, Timely, Bounded;
      var inventoried: bool := *;
      :- world.Act();
      if inventoried || returned {
        bankBytes := bankBytes + captured;
      }
      r := world.Act();
    }

    /** A worker stores what it reads; it may be killed on the way. Only a complete capture is returned. */
    method Capture(answers: nat -> CaptureStream.ReadResult, declared: Option<nat>, allowance: nat)
        returns (captured: nat, r: Ended)
      modifies world
      ensures captured <= allowance && world.troubles >= old(world.troubles)
      ensures r.Went? ==> world.troubles == old(world.troubles) && IsWhole(answers, declared, captured)
      ensures r.Stopped? ==>
        || world.troubles > old(world.troubles)
        || (r.failure.Coded? && BreaksOff(r.failure.code, answers, declared, captured, allowance))
    {
      var outcome, n := CaptureStream.Stream(answers, declared, allowance);
      captured := |outcome.stored|;
      assert CaptureStream.ReadTo(answers, n, captured);
      var lived := world.Act();
      if lived.Stopped? {
        var killedAfter: nat, reason: string := *, *;
        return if killedAfter < captured then killedAfter else captured, Stopped(Coded(reason));
      }
      if outcome.Raised? {
        return captured, Stopped(Coded(if outcome.readFailed then "READ" else "TRANSPORT_PROTOCOL"));
      }
      if !outcome.IsComplete() {
        var framed := outcome.reason == Some(CaptureStream.Framing);
        return captured, Stopped(Coded(if framed then "FRAMING" else "BYTE_LIMIT"));
      }
      r := world.Act();
    }

    /**
     One call of the source client. It opens the request of this step at most once; when the second bank does
     not know a label, the client may then ask for another catalog page, which the run refuses.
     */
    method Exchange(row: Row, deadline: real, fallback: bool) returns (r: Ended)
      requires Valid() && row.Sound() && stored == bankBytes && IsDeadline(deadline)
      requires row.attempted.requests + (if fallback then 1 else 0) < BANK_REQUESTS
      requires total + (if fallback then 1 else 0) < GLOBAL_REQUESTS
      modifies this`now, this`total, this`lastStart, this`bankBytes, this`admitted, this`starts, this`sizes, this`stored
      modifies this`guardFired, row`attempted, world
      ensures Valid() && row.Sound() && guardFired == old(guardFired)
      ensures world.troubles >= old(world.troubles) && (r.Went? ==> world.troubles == old(world.troubles))
      ensures r.Stopped? ==> Explains(r.failure, old(world.troubles), deadline)
      ensures r.Went? ==> IsCaptured()
      ensures old(total) <= total <= old(total) + 1 && (r.Went? ==> total == old(total) + 1 && stored == bankBytes)
      ensures row.attempted == old(row.attempted).(requests := old(row.attempted.requests) + total - old(total))
    {
      hide BreaksOff, IsTenth, IsWhole, Paced, Timely, Bounded;
      :- world.Act();
      var matches := world.Comply();
      r := OpenRequest(row, deadline, matches);
      if r == Stopped(OutputError) {
        var dropped: bool := *;
        return if dropped then Stopped(Coded("UPSTREAM_UNAVAILABLE")) else r;
      }
      if r.Went? {
        r := world.Act();
        var searches: bool := *;
        if fallback && searches && r == Stopped(Coded("NOT_FOUND")) {
          r := OpenRequest(row, deadline, false);
        }
      }
    }

    /** `call`: the exchange, then the checks on what came back; only then does the request count as successful. */
    method Ask(row: Row, deadline: real, step: Step, fallback: bool) returns (r: Ended, page: Page)
      requires Valid() && row.Sound() && stored == bankBytes && IsDeadline(deadline)
      requires row.attempted.requests + (if fallback then 1 else 0) < BANK_REQUESTS
      requires total + (if fallback then 1 else 0) < GLOBAL_REQUESTS
      requires row.successful.requests <= row.attempted.requests
      modifies this`now, this`total, this`lastStart, this`bankBytes, this`admitted, this`starts, this`sizes, this`stored
      modifies this`calls, this`guardFired, row`attempted, row`successful, world
      ensures Valid() && row.Sound() && guardFired == old(guardFired)
      ensures world.troubles >= old(world.troubles) && (r.Went? ==> world.troubles == old(world.troubles))
      ensures r.Stopped? ==> Explains(r.failure, old(world.troubles), deadline)
      ensures r.Went? ==> IsCaptured() && IsValidated(Call(step, page))
      ensures old(total) <= total <= old(total) + 1 && (r.Went? ==> total == old(total) + 1 && stored == bankBytes)
      ensures row.attempted == old(row.attempted).(requests := old(row.attempted.requests) + total - old(total))
      ensures row.successful == old(row.successful).(requests := row.successful.requests)
      ensures r.Went? ==> row.successful.requests == old(row.successful.requests) + 1
      ensures calls == old(calls) + [Call(step, page)]
    {
      hide Paced, Timely, Bounded, IsAllowed, BreaksOff, IsWhole, IsTenth;
      page := *;
      calls := calls + [Call(step, page)];
      :- Exchange(row, deadline, fallback);
      var t := Now();
      :- Require(t < deadline, "DEADLINE");
      :- Require(page.identified, "IDENTITY");
      :- Require(page.timely, "FETCHED_AT");
      row.successful := row.successful.(requests := row.successful.requests + 1);
      :- world.Act();
      r := Went;
    }

    /** `pages`: at most ten calls, each after the first for the cursor of the page before it. */
    method Pages(row: Row, deadline: real, listing: Listing, fallback: bool) returns (r: Ended, ghost walk: seq<Call>)
      requires Valid() && row.Sound() && stored == bankBytes && IsDeadline(deadline)
      requires row.attempted.requests == row.successful.requests
      requires row.attempted.requests + PAGES + (if fallback then 1 else 0) <= BANK_REQUESTS
      requires total + PAGES + (if fallback then 1 else 0) <= GLOBAL_REQUESTS
      modifies this`now, this`total, this`lastStart, this`bankBytes, this`admitted, this`starts, this`sizes, this`stored
      modifies this`calls, this`guardFired, row`attempted, row`successful, world
      ensures Valid() && row.Sound() && guardFired == old(guardFired)
      ensures world.troubles >= old(world.troubles) && (r.Went? ==> world.troubles == old(world.troubles))
      ensures r.Stopped? ==> Explains(r.failure, old(world.troubles), deadline)
      ensures old(total) <= total <= old(total) + PAGES
      ensures row.attempted == old(row.attempted).(requests := old(row.attempted.requests) + total - old(total))
      ensures row.successful == old(row.successful).(requests := row.successful.requests)
      ensures r.Went? ==> stored == bankBytes && row.attempted.requests == row.successful.requests
      ensures calls == old(calls) + walk && FollowsCursors(listing, walk)
      ensures r.Went? ==> CompleteWalk(listing, walk) && total == old(total) + |walk|
    {
      hide Valid, IsAllowed, Walking, FollowsCursors, CompleteWalk, IsFlaw, IsCutOff, IsCaptured;
      var cursor: Option<string>, seen: set<string>, number := None, {}, 1;
      walk := [];
      WalkStarts(listing);
      while number <= PAGES
        invariant 1 <= number <= PAGES + 1 && |walk| == number - 1 && total == old(total) + number - 1
        invariant Valid() && row.Sound() && guardFired == old(guardFired) && stored == bankBytes
        invariant row.attempted == old(row.attempted).(requests := old(row.attempted.requests) + total - old(total))
        invariant row.successful == old(row.successful).(requests := row.successful.requests)
        invariant row.attempted.requests == row.successful.requests
        invariant calls == old(calls) + walk && Walking(listing, walk, seen, cursor)
        invariant world.troubles == old(world.troubles)
      {
        var answer, page := Ask(row, deadline, Asking(listing, cursor), fallback);
        ghost var call := Call(Asking(listing, cursor), page);
        assert calls[|calls| - |walk| - 1..] == walk + [call];
        WalkContinues(calls, listing, walk, seen, cursor, call);
        walk := walk + [call];
        if answer.Stopped? {
          return answer, walk;
        }
        if page.complete {
          r := Require(!page.hasNextField, "PAGINATION");
          return;
        }
        var following := page.next;
        var useful := following.Some? && following.value != "" && following.value !in seen && following != cursor;
        if !useful {
          return Stopped(ValueError("PAGINATION")), walk;
        }
        seen, cursor := seen + {following.value}, following;
        number := number + 1;
      }
      assert calls[|calls| - 10..] == walk;
      WalkIsTooLong(calls, listing, walk, seen, cursor);
      WalkFollows(listing, walk, seen, cursor);
      r := Stopped(ValueError("PAGE_LIMIT"));
    }

    /** Every required resource is read once, checked, and only then covered. */
    method ReadResources(row: Row, deadline: real, required: seq<string>) returns (r: Ended)
      requires Valid() && row.Sound() && stored == bankBytes && IsDeadline(deadline)
      requires row.required == |required| && row.coverage == []
      requires row.attempted == row.successful.(articles := 1) && row.attempted.resources == 0
      requires row.attempted.requests + |required| <= BANK_REQUESTS && total + |required| <= GLOBAL_REQUESTS
      modifies this`now, this`total, this`lastStart, this`bankBytes, this`admitted, this`starts, this`sizes, this`stored
      modifies this`calls, this`guardFired, row`attempted, row`successful, row`coverage, world
      ensures Valid() && row.Sound() && guardFired == old(guardFired)
      ensures world.troubles >= old(world.troubles) && (r.Went? ==> world.troubles == old(world.troubles))
      ensures r.Stopped? ==> Explains(r.failure, old(world.troubles), deadline)
      ensures total == old(total) + row.attempted.requests - old(row.attempted.requests)
      ensures r.Went? ==> row.coverage == required && row.attempted == row.successful.(articles := 1)
      ensures r.Went? ==> row.attempted.resources == |required|
      ensures r.Went? ==> old(calls) <= calls && ReadsEach(calls[|old(calls)|..], required)
    {
      hide IsAllowed, Valid, IsCutOff, IsCaptured;
      ghost var reading: seq<Call> := [];
      var n := 0;
      while n < |required|
        invariant n <= |required| && Valid() && row.Sound() && stored == bankBytes
        invariant row.attempted == row.successful.(articles := 1) && row.attempted.resources == n
        invariant row.attempted.requests == old(row.attempted.requests) + n && total == old(total) + n
        invariant row.coverage == required[..n] && guardFired == old(guardFired)
        invariant calls == old(calls) + reading && ReadsEach(reading, required[..n])
        invariant row.successful.articles == old(row.successful.articles)
        invariant world.troubles == old(world.troubles)
      {
        row.attempted := row.attempted.(resources := row.attempted.resources + 1);
        var page :- Ask(row, deadline, Read(required[n]), false);
        reading := reading + [Call(Read(required[n]), page)];
        if page.secret {
          :- world.Act();
          return Stopped(Coded("SECRET_INCIDENT"));
        }
        :- world.Act();
        row.successful := row.successful.(resources := row.successful.resources + 1);
        :- world.Act();
        row.coverage := row.coverage + [required[n]];
        n := n + 1;
      }
      r := Went;
    }

    /** The four catalog branches, each paged and each holding the enrolled choice. */
    method WalkCatalog(row: Row, deadline: real, second: bool) returns (r: Ended, ghost walks: seq<seq<Call>>)
      requires Valid() && row.Sound() && stored == bankBytes && IsDeadline(deadline)
      requires row.attempted.requests == row.successful.requests == 1
      requires total + CATALOG_BRANCHES * PAGES < GLOBAL_REQUESTS
      modifies this`now, this`total, this`lastStart, this`bankBytes, this`admitted, this`starts, this`sizes, this`stored
      modifies this`calls, this`guardFired, row`attempted, row`successful, world
      ensures Valid() && row.Sound() && guardFired == old(guardFired)
      ensures world.troubles >= old(world.troubles) && (r.Went? ==> world.troubles == old(world.troubles))
      ensures r.Stopped? ==> Explains(r.failure, old(world.troubles), deadline)
      ensures old(total) <= total <= old(total) + CATALOG_BRANCHES * PAGES
      ensures row.attempted == old(row.attempted).(requests := old(row.attempted.requests) + total - old(total))
      ensures row.successful == old(row.successful).(requests := row.successful.requests)
      ensures r.Went? ==> stored == bankBytes && row.attempted.requests == row.successful.requests
      ensures r.Went? ==> |walks| == CATALOG_BRANCHES && calls == old(calls) + Together(walks)
      ensures r.Went? ==> forall i | 0 <= i < |walks| :: CompleteWalk(Branch(i), walks[i])
    {
      hide IsAllowed, Valid, CompleteWalk, FollowsCursors, IsFlaw, IsCutOff;
      var scope := 0;
      walks := [];
      while scope < CATALOG_BRANCHES
        invariant scope <= CATALOG_BRANCHES && Valid() && row.Sound() && stored == bankBytes
        invariant row.attempted == old(row.attempted).(requests := old(row.attempted.requests) + total - old(total))
        invariant row.successful == old(row.successful).(requests := row.successful.requests)
        invariant row.attempted.requests == row.successful.requests
        invariant world.troubles == old(world.troubles)
        invariant old(total) <= total <= old(total) + scope * PAGES && guardFired == old(guardFired)
        invariant |walks| == scope && calls == old(calls) + Together(walks)
        invariant forall i | 0 <= i < scope :: CompleteWalk(Branch(i), walks[i])
      {
        ghost var walk :- Pages(row, deadline, Branch(scope), second && scope >= 2);
        TogetherGrows(walks, walk);
        walks := walks + [walk];
        :- world.Act();
        scope := scope + 1;
      }
      r := Went;
    }

    /** The vehicle and the list of its articles. */
    method ListArticles(row: Row, deadline: real) returns (r: Ended, ghost listed: seq<Call>)
      requires Valid() && row.Sound() && stored == bankBytes && IsDeadline(deadline)
      requires row.attempted.requests == row.successful.requests
      requires row.attempted.requests + PAGES < BANK_REQUESTS && total + PAGES < GLOBAL_REQUESTS
      modifies this`now, this`total, this`lastStart, this`bankBytes, this`admitted, this`starts, this`sizes, this`stored
      modifies this`calls, this`guardFired, row`attempted, row`successful, world
      ensures Valid() && row.Sound() && guardFired == old(guardFired)
      ensures world.troubles >= old(world.troubles) && (r.Went? ==> world.troubles == old(world.troubles))
      ensures r.Stopped? ==> Explains(r.failure, old(world.troubles), deadline)
      ensures old(total) <= total <= old(total) + PAGES + 1
      ensures row.attempted == old(row.attempted).(requests := old(row.attempted.requests) + total - old(total))
      ensures row.successful == old(row.successful).(requests := row.successful.requests)
      ensures r.Went? ==> stored == bankBytes && row.attempted.requests == row.successful.requests
      ensures r.Went? ==> calls == old(calls) + listed && ListsArticles(listed)
    {
      hide IsAllowed, Valid, CompleteWalk, FollowsCursors, IsFlaw, IsCutOff;
      listed := [];
      var vehicle :- Ask(row, deadline, Resolution, false);
      :- world.Act();
      ghost var articles :- Pages(row, deadline, ArticleList, false);
      listed := [Call(Resolution, vehicle)] + articles;
      assert listed[1..] == articles;
      r := world.Act();
    }

    /** Capabilities, the catalog, the vehicle and its article list: at most 52 requests lead to the article. */
    method FindArticle(row: Row, deadline: real, second: bool) returns (r: Ended)
      requires Valid() && row.Sound() && stored == bankBytes && IsDeadline(deadline)
      requires row.attempted == row.successful == Counters(0, 0, 0) && total <= GLOBAL_REQUESTS - BANK_REQUESTS
      requires calls == []
      modifies this`now, this`total, this`lastStart, this`bankBytes, this`admitted, this`starts, this`sizes, this`stored
      modifies this`calls, this`guardFired, row`attempted, row`successful, world
      ensures Valid() && row.Sound() && guardFired == old(guardFired)
      ensures world.troubles >= old(world.troubles) && (r.Went? ==> world.troubles == old(world.troubles))
      ensures r.Stopped? ==> Explains(r.failure, old(world.troubles), deadline)
      ensures total == old(total) + row.attempted.requests <= old(total) + BANK_REQUESTS - MAX_REQUIRED
      ensures row.attempted.articles == row.attempted.resources == 0
      ensures row.successful.articles == row.successful.resources == 0
      ensures r.Went? ==> stored == bankBytes && row.attempted == row.successful
      ensures r.Went? ==> ReachesArticle(calls)
    {
      hide IsAllowed, ValidLine, Valid, CompleteWalk, ListsArticles, Together, ReachesArticle;
      hide IsFlaw, IsCutOff, IsCaptured;
      var t := Now();
      :- Require(t < deadline, "DEADLINE");
      :- world.Act();
      var first :- Ask(row, deadline, Capabilities, false);
      :- world.Act();
      ghost var branches :- WalkCatalog(row, deadline, second);
      ghost var listed :- ListArticles(row, deadline);
      ArticleReached(Call(Capabilities, first), branches, listed);
      assert calls == [Call(Capabilities, first)] + Together(branches) + listed;
      r := world.Act();
    }

    /** The `try` block for one bank: the whole finite graph, resource by resource. */
    method Inspect(row: Row, deadline: real, required: seq<string>, second: bool) returns (r: Ended)
      requires Valid() && row.Sound() && stored == bankBytes && IsDeadline(deadline)
      requires row.state == PendingState && row.coverage == [] && row.stopCode.None?
      requires row.attempted == row.successful == Counters(0, 0, 0)
      requires row.required == |required| && 1 <= |required| <= MAX_REQUIRED
      requires total <= GLOBAL_REQUESTS - BANK_REQUESTS && calls == []
      modifies this`now, this`total, this`lastStart, this`bankBytes, this`admitted, this`starts, this`sizes, this`stored
      modifies this`calls, this`guardFired, row`attempted, row`successful, row`coverage, row`state, world
      ensures Valid() && row.Sound() && guardFired == old(guardFired)
      ensures world.troubles >= old(world.troubles) && (r.Went? ==> world.troubles == old(world.troubles))
      ensures r.Stopped? ==> Explains(r.failure, old(world.troubles), deadline)
      ensures total == old(total) + row.attempted.requests
      ensures r.Went? ==> row.state == ObservedComplete && row.coverage == required && Inspected(calls, required)
      ensures r.Went? ==> row.successful == row.attempted == Counters(row.attempted.requests, 1, |required|)
    {
      hide IsAllowed, Valid, ReachesArticle, ReadsEach, Inspected, IsFlaw, IsCutOff;
      :- FindArticle(row, deadline, second);
      ghost var before := calls;
      row.attempted := row.attempted.(articles := 1);
      :- world.Act();
      :- ReadResources(row, deadline, required);
      ReadingCompletes(before, calls[|before|..], required);
      assert calls == before + calls[|before|..];
      row.successful := row.successful.(articles := 1);
      row.state := ObservedComplete;
      r := world.Act();
    }

    /** The `except` block: a failure is always given an allowed code, and may concern the next bank as well. */
    method Close(row: Row, failure: Failure)
      requires row.Sound() && shared.None?
      modifies this`shared, row`state, row`stopCode
      ensures row.Sound() && row.state in {Incomplete, Failed} && row.stopCode.Some?
      ensures shared.Some? ==> IsShared(shared.value) && IsAllowed(shared.value) && row.stopCode == shared
      ensures row.stopCode.value in {StopCode(failure), "OUTPUT_FAILURE"} && row.state == StateAfter(row.stopCode.value)
      ensures IsShared(row.stopCode.value) ==> shared == row.stopCode
      ensures ClosedFor(failure, row.state, row.stopCode, shared)
    {
      hide Stops, LeavesAs, ConcernsAll;
      CodesAreExact(failure);
      StatesAreExact(StopCode(failure));
      var code := StopCode(failure);
      row.state, row.stopCode := StateAfter(code), Some(code);
      if IsShared(code) {
        SharedCodesAreAllowed(code);
        shared := Some(code);
      }
      var logged: bool := *;
      if !logged {
        OutputFailureIsShared();
        shared := Some("OUTPUT_FAILURE");
        row.state, row.stopCode := Incomplete, shared;
      }
    }

    /** The clock is read, the byte budget starts afresh, and the bank gets its deadline. */
    method BeginBank() returns (deadline: real)
      requires Valid()
      modifies this`now, this`bankBytes, this`stored, this`banks, this`calls, this`earlier
      ensures Valid() && bankBytes == stored == 0 && IsDeadline(deadline)
      ensures |banks| == |old(banks)| + 1 && banks[..|old(banks)|] == old(banks)
      ensures banks[|old(banks)|].first == total && banks[|old(banks)|].start >= old(now)
      ensures calls == [] && earlier == old(Calls())
    {
      hide Paced, Timely, Bounded;
      ghost var all := Calls();
      var bankStart := Now();
      OneMoreBank(admitted, banks, runStart, bankStart);
      NextBankIsBounded(sizes, banks, stored, bankStart);
      bankBytes, stored := 0, 0;
      calls, earlier := [], all;
      banks := banks + [BankTime(total, bankStart)];
      deadline := Sooner(bankStart + BANK_SECONDS, runStart + RUN_SECONDS);
    }

    /**
     One bank of the run. Whatever happens, its row leaves `pending` with an allowed stop code, or is complete
     with every required resource covered once, all counters met and the calls of the whole graph made.
     */
    method RunBank(row: Row, required: seq<string>, second: bool)
      requires Valid() && row.state == PendingState && row.coverage == [] && row.stopCode.None?
      requires row.attempted == row.successful == Counters(0, 0, 0)
      requires row.required == |required| && 1 <= |required| <= MAX_REQUIRED
      requires total <= GLOBAL_REQUESTS - BANK_REQUESTS && (shared.Some? ==> IsAllowed(shared.value))
      modifies this, row, world
      ensures Valid() && row.Sound() && guardFired == old(guardFired)
      ensures total == old(total) + row.attempted.requests && (shared.Some? ==> IsAllowed(shared.value))
      ensures Settled(row, required)
      ensures old(shared).Some? ==> row.state == Withdrawn && row.stopCode == old(shared) == shared
      ensures old(shared).Some? ==> total == old(total) && banks == old(banks)
      ensures old(shared).None? ==> row.state != Withdrawn && |banks| == |old(banks)| + 1
      ensures old(shared).None? ==> banks[..|old(banks)|] == old(banks) && banks[|old(banks)|].first == old(total)
      ensures old(shared).None? ==> banks[|old(banks)|].start >= old(now)
      ensures Calls() == old(Calls()) + if old(shared).None? then [calls] else []
      ensures row.state == ObservedComplete ==> Inspected(calls, row.coverage)
      ensures old(shared).Some? ==> ends == old(ends) && row.attempted == row.successful == Counters(0, 0, 0)
      ensures old(shared).None? ==>
        && |ends| == |old(ends)| + 1 && ends[..|old(ends)|] == old(ends)
        && match ends[|old(ends)|]
           case None => row.state == ObservedComplete && shared.None? && world.troubles == old(world.troubles)
           case Some(failure) =>
             && ClosedFor(failure, row.state, row.stopCode, shared)
             && Explains(failure, old(world.troubles), Deadline(banks[|old(banks)|], runStart))
      ensures shared.Some? && old(shared).None? ==> IsShared(shared.value) && row.stopCode == shared
    {
      hide ClosedFor, Settled, IsAllowed, IsShared, Valid, Inspected, Explains;
      if shared.Some? {
        row.state, row.stopCode := Withdrawn, shared;
        WithdrawnIsSettled(row, required);
        return;
      }
      VisitBank(row, required, second);
    }

    /** The bank is begun, inspected and, if that fails, closed. */
    method VisitBank(row: Row, required: seq<string>, second: bool)
      requires Valid() && row.state == PendingState && row.coverage == [] && row.stopCode.None?
      requires row.attempted == row.successful == Counters(0, 0, 0)
      requires row.required == |required| && 1 <= |required| <= MAX_REQUIRED
      requires total <= GLOBAL_REQUESTS - BANK_REQUESTS && shared.None?
      modifies this, row, world
      ensures Valid() && row.Sound() && guardFired == old(guardFired)
      ensures total == old(total) + row.attempted.requests && (shared.Some? ==> IsAllowed(shared.value))
      ensures Settled(row, required) && row.state != Withdrawn
      ensures |banks| == |old(banks)| + 1 && banks[..|old(banks)|] == old(banks)
      ensures banks[|old(banks)|].first == old(total) && banks[|old(banks)|].start >= old(now)
      ensures Calls() == old(Calls()) + [calls]
      ensures row.state == ObservedComplete ==> Inspected(calls, row.coverage)
      ensures |ends| == |old(ends)| + 1 && ends[..|old(ends)|] == old(ends)
      ensures match ends[|old(ends)|]
              case None => row.state == ObservedComplete && shared.None? && world.troubles == old(world.troubles)
              case Some(failure) =>
                && ClosedFor(failure, row.state, row.stopCode, shared)
                && Explains(failure, old(world.troubles), Deadline(banks[|old(banks)|], runStart))
      ensures shared.Some? ==> IsShared(shared.value) && row.stopCode == shared
    {
      hide ClosedFor, IsFlaw, BreaksOff;
      hide IsAllowed, IsShared, StateAfter, StopCode, Paced, Timely, Bounded, Inspected;
      var deadline := BeginBank();
      var r := Inspect(row, deadline, required, second);
      ends := ends + [if r.Stopped? then Some(r.failure) else None];
      if r.Stopped? {
        Close(row, r.failure);
      }
    }
  }

  lemma WithdrawnIsSettled(row: Row, required: seq<string>)
    requires row.state == Withdrawn && row.stopCode.Some?
    ensures Settled(row, required)
  {
  }

  /** How a row may stand once its bank is over. */
  ghost predicate Settled(row: Row, required: seq<string>)
    reads row
  {
    && row.state != PendingState
    && (row.state == ObservedComplete <==> row.stopCode.None?)
    && (row.state == ObservedComplete ==>
      && row.coverage == required
      && row.attempted == row.successful == Counters(row.attempted.requests, 1, |required|))
  }

  /** The required references in the order of their first mention. */
  method RequiredInOrder(items: seq<Resource>) returns (refs: seq<string>)
    ensures Distinct(refs) && Elements(refs) == RequiredRefs(items)
  {
    refs := [];
    var n := 0;
    while n < |items|
      invariant n <= |items| && Distinct(refs) && Elements(refs) == RequiredRefs(items[..n])
    {
      var added := if items[n].required then {items[n].ref} else {};
      assert RequiredRefs(items[..n + 1]) == RequiredRefs(items[..n]) + added
      by {
        forall ref | ref in RequiredRefs(items[..n])
          ensures ref in RequiredRefs(items[..n + 1])
        {
          var i :| 0 <= i < n && items[..n][i].required && items[..n][i].ref == ref;
          assert items[..n + 1][i].ref == ref;
        }
      }
      AppendDistinct(refs, items[n].ref);
      if items[n].required && items[n].ref !in refs {
        refs := refs + [items[n].ref];
      }
      n := n + 1;
    }
    assert items[..|items|] == items;
  }

  /** Every required reference was read and checked, each exactly once, and nothing else was. */
  ghost predicate Covered(row: Row, items: seq<Resource>)
    reads row
  {
    && Distinct(row.coverage) && Elements(row.coverage) == RequiredRefs(items)
    && row.successful == row.attempted
    && row.successful.articles == 1 && row.successful.resources == |row.coverage| == row.required
  }

  /** The rows of both banks and the run that filled them. */
  datatype Report = Report(first: Row, second: Row, run: CanaryRun)

  /** A row as it is published: settled, valid, and complete only with all it needed. */
  ghost predicate Published(row: Row, items: seq<Resource>)
    reads row
  {
    && row.Sound() && row.state != PendingState
    && (row.stopCode.None? <==> row.state == ObservedComplete)
    && (row.state == ObservedComplete ==> Covered(row, items))
  }

  /** The row of one bank, with its intended counters, and what it has to read. */
  method Enroll(e: Enrollment) returns (row: Row, required: seq<string>)
    requires ValidResources(e)
    ensures Distinct(required) && Elements(required) == RequiredRefs(e.items)
    ensures fresh(row) && row.required == |required| && 1 <= |required| <= MAX_REQUIRED
    ensures row.state == PendingState && row.stopCode.None? && row.coverage == []
    ensures row.attempted == row.successful == Counters(0, 0, 0) && row.Sound()
  {
    hide ValidResources;
    required := RequiredInOrder(e.items);
    RequiredAreAtMostSix(e);
    DistinctCount(required);
    row := new Row(|required|);
  }

  /** When the evidence cannot be opened, or the summary cannot be written, the row says so and keeps its counters. */
  method NotWritten(row: Row, items: seq<Resource>)
    requires row.Sound()
    modifies row`state, row`stopCode
    ensures row.state == Incomplete && row.stopCode == Some("OUTPUT_FAILURE") && Published(row, items)
  {
    OutputFailureIsShared();
    row.state, row.stopCode := Incomplete, Some("OUTPUT_FAILURE");
  }

  /** Both rows are written down as they are, or neither is. */
  method Publish(a: Row, b: Row, first: seq<Resource>, second: seq<Resource>, world: World)
    requires a != b && Published(a, first) && Published(b, second)
    modifies a`state, a`stopCode, b`state, b`stopCode, world
    ensures Published(a, first) && Published(b, second) && world.troubles >= old(world.troubles)
    ensures (Unwritten(a) && Unwritten(b) && world.troubles > 0)
         || (&& a.state == old(a.state) && a.stopCode == old(a.stopCode)
             && b.state == old(b.state) && b.stopCode == old(b.stopCode))
  {
    hide ValidLine, Covered;
    var written := world.Comply();
    if !written {
      NotWritten(a, first);
      NotWritten(b, second);
    }
  }

  lemma SettledIsPublished(row: Row, required: seq<string>, items: seq<Resource>)
    requires row.Sound() && Settled(row, required) && row.required == |required|
    requires Distinct(required) && Elements(required) == RequiredRefs(items)
    ensures Published(row, items)
  {
  }

  /** The requests of the first bank come first; the second bank is begun after it or not at all. */
  ghost predicate BankByBank(run: CanaryRun, firstRequests: int)
    reads run
  {
    && |run.banks| <= 2
    && (|run.banks| >= 1 ==> run.banks[0].first == 0 && run.runStart <= run.banks[0].start)
    && (|run.banks| == 2 ==> run.banks[1].first == firstRequests && run.banks[0].start <= run.banks[1].start)
    && (|run.banks| < 2 ==> run.total == firstRequests)
  }

  /** A complete row has its bank's whole graph behind it. */
  ghost predicate Backed(row: Row, calls: seq<seq<Call>>, b: nat)
    reads row
  {
    row.state == ObservedComplete ==> b < |calls| && Inspected(calls[b], row.coverage)
  }

  /** A row closed for what concerns both banks says so, whatever became of its log. */
  lemma SharedStops(end: Option<Failure>, state: RowState, stopCode: Option<string>)
    ensures forall shared | end.Some? && ClosedFor(end.value, state, stopCode, shared) ::
      (exists code :: Stops(end.value, code) && ConcernsAll(code)) ==> shared.Some?
  {
  }

  /** Neither row could be written down. */
  predicate Unwritten(row: Row)
    reads row
  {
    row.state == Incomplete && row.stopCode == Some("OUTPUT_FAILURE")
  }

  /** A row that was written says how its bank ended; one whose bank was not begun was withdrawn for the other. */
  ghost predicate SaysHow(row: Row, ends: seq<Option<Failure>>, b: nat)
    reads row
  {
    if b < |ends| then
      match ends[b]
      case None => row.state == ObservedComplete
      case Some(failure) => exists shared :: ClosedFor(failure, row.state, row.stopCode, shared)
    else row.state == Withdrawn && row.attempted == row.successful == Counters(0, 0, 0)
  }

  /** What concerns both banks, an interruption above all, keeps the second from being begun. */
  ghost predicate StopsBoth(run: CanaryRun, second: Row)
    reads run, second
  {
    |run.ends| == |run.banks|
    && (|run.ends| > 0 && run.ends[0].Some? && (exists code :: Stops(run.ends[0].value, code) && ConcernsAll(code)) ==>
          |run.banks| == 1 && second.attempted == second.successful == Counters(0, 0, 0))
  }

  /** Nothing has been done for the bank yet. */
  ghost predicate IsUntouched(row: Row, required: seq<string>)
    reads row
  {
    && row.state == PendingState && row.stopCode.None? && row.coverage == []
    && row.attempted == row.successful == Counters(0, 0, 0)
    && row.required == |required| && 1 <= |required| <= MAX_REQUIRED
  }

  /** One bank after the other, on a run that has not begun any. */
  method RunBoth(r: Report, one: seq<string>, two: seq<string>)
    requires r.first != r.second && IsUntouched(r.first, one) && IsUntouched(r.second, two)
    requires r.run.Valid() && r.run.banks == [] && r.run.ends == [] && r.run.total == 0 && r.run.shared.None?
    requires r.run.now >= r.run.runStart
    modifies r.run, r.run.world, r.first, r.second
    ensures r.run.Valid() && r.run.guardFired == old(r.run.guardFired)
    ensures r.run.total == r.first.attempted.requests + r.second.attempted.requests
    ensures BankByBank(r.run, r.first.attempted.requests)
    ensures r.first.Sound() && r.second.Sound() && Settled(r.first, one) && Settled(r.second, two)
    ensures Backed(r.first, r.run.Calls(), 0) && Backed(r.second, r.run.Calls(), 1)
    ensures StopsBoth(r.run, r.second)
    ensures SaysHow(r.first, r.run.ends, 0) && SaysHow(r.second, r.run.ends, 1)
  {
    hide IsAllowed, IsShared, Paced, Timely, Bounded, Settled, Inspected, Stops, ConcernsAll, ClosedFor;
    r.run.RunBank(r.first, one, false);
    r.run.RunBank(r.second, two, true);
    SharedStops(r.run.ends[0], r.first.state, r.first.stopCode);
  }

  /** Both banks, after the enrollment was accepted. */
  method RunBanks(first: Enrollment, second: Enrollment, start: real,
                  streams: nat -> nat -> CaptureStream.ReadResult, lengths: nat -> Option<nat>)
      returns (report: Report)
    requires ValidResources(first) && ValidResources(second)
    ensures report.run.Valid() && !report.run.guardFired && report.run.runStart == start
    ensures report.first != report.second
    ensures report.run.total == report.first.attempted.requests + report.second.attempted.requests
    ensures BankByBank(report.run, report.first.attempted.requests)
    ensures Published(report.first, first.items) && Published(report.second, second.items)
    ensures Backed(report.first, report.run.Calls(), 0) && Backed(report.second, report.run.Calls(), 1)
    ensures StopsBoth(report.run, report.second)
    ensures (Unwritten(report.first) && Unwritten(report.second) && report.run.world.troubles > 0)
         || (SaysHow(report.first, report.run.ends, 0) && SaysHow(report.second, report.run.ends, 1))
  {
    hide IsAllowed, IsShared, ValidResources, Paced, Timely, Bounded, Published, Settled, Inspected;
    hide Stops, ConcernsAll, ClosedFor, Covered, RequiredRefs, RequiredRefsOf, RefsOf, Elements;
    var a, one := Enroll(first);
    var b, two := Enroll(second);
    var run := new CanaryRun(start, streams, lengths);
    report := Report(a, b, run);
    var evidence := run.world.Comply();
    if !evidence {
      NotWritten(a, first.items);
      NotWritten(b, second.items);
      return;
    }
    RunBoth(report, one, two);
    SettledIsPublished(a, one, first.items);
    SettledIsPublished(b, two, second.items);
    // so the validator that `finish` applies to the summary never refuses it
    assert ValidLine(a.Summary()) && ValidLine(b.Summary());
    Publish(a, b, first.items, second.items, run.world);
  }

  /**
   The whole run, whatever everything outside does: an enrollment is refused or both banks are run. Then at most
   58 requests go to a bank and 116 in all, at least a second apart, each admitted within 900 seconds of the start
   of its bank and 1790 of the run's; at most 20,000,000 bytes are put on disk for a request and 100,000,000 for a
   bank; the request guard is never what stops a bank; every row has left `pending` and is publishable; and behind
   a complete row stands the whole graph of its bank, with exactly the required references read.
   */
  method RunCapture(first: Enrollment, second: Enrollment, start: real,
                    streams: nat -> nat -> CaptureStream.ReadResult, lengths: nat -> Option<nat>)
      returns (report: Option<Report>)
    ensures report.Some? <==> ValidResources(first) && ValidResources(second)
    ensures report.Some? ==>
      var r := report.value;
      && Published(r.first, first.items) && r.first.attempted.requests <= 58
      && Published(r.second, second.items) && r.second.attempted.requests <= 58
      && r.first != r.second && r.run.total == r.first.attempted.requests + r.second.attempted.requests
      && r.run.total == |r.run.starts| <= 116 && Paced(r.run.starts, r.run.admitted, start + 1790.0)
      && Timely(r.run.admitted, r.run.banks, start)
      && |r.run.sizes| == r.run.total && Bounded(r.run.sizes, r.run.banks, r.run.stored)
      && BankByBank(r.run, r.first.attempted.requests)
      && StopsBoth(r.run, r.second)
      && ((Unwritten(r.first) && Unwritten(r.second) && r.run.world.troubles > 0)
          || (SaysHow(r.first, r.run.ends, 0) && SaysHow(r.second, r.run.ends, 1)))
      && r.run.Valid() && Backed(r.first, r.run.Calls(), 0) && Backed(r.second, r.run.Calls(), 1)
      && !r.run.guardFired
  {
    hide ValidResources, Paced, Timely, Bounded, Covered, IsAllowed, Backed, StopsBoth, SaysHow;
    var one := ValidateResources(first);
    var two := ValidateResources(second);
    if !one || !two {
      return None;
    }
    var done := RunBanks(first, second, start, streams, lengths);
    report := Some(done);
  }
}
