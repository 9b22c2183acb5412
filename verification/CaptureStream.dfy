/** `_stream`: original bytes are stored as they are read, never past the allowance. */
module CaptureStream {
  import opened Wrappers

  const READ_SIZE := 65536

  /** What one `response.read(n)` gives; an empty chunk is the end of the stream. */
  datatype ReadResult = Chunk(bytes: Bytes) | NotBytes | ReadError

  datatype CaptureState = Complete | Partial

  datatype Reason = ByteLimit | Framing

  datatype Outcome =
    | Captured(state: CaptureState, reason: Option<Reason>, stored: Bytes)
    | Raised(readFailed: bool, stored: Bytes)
  {
    predicate IsComplete() {
      Captured? && state.Complete?
    }
  }

  function Least(a: int, b: int): int {
    if a < b then a else b
  }

  /** The bytes of the first n reads, in order. */
  function Taken(replies: nat -> ReadResult, n: nat): Bytes {
    if n == 0 then []
    else
      var before := Taken(replies, n - 1);
      match replies(n - 1)
      case Chunk(bytes) => before + bytes
      case _ => before
  }

  /** So many reads brought these many bytes, and none of them was the end or an error. */
  ghost predicate ReadTo(replies: nat -> ReadResult, n: nat, size: nat) {
    |Taken(replies, n)| == size && forall k | 0 <= k < n :: replies(k).Chunk? && replies(k).bytes != []
  }

  /** The end of the stream was seen after n reads, while there was still allowance left. */
  predicate EndSeen(replies: nat -> ReadResult, n: nat, allowance: int) {
    |Taken(replies, n)| < allowance && replies(n) == Chunk([])
  }

  predicate Overlong(result: ReadResult, asked: int) {
    result.NotBytes? || (result.Chunk? && |result.bytes| > asked)
  }

  /**
   What is stored is exactly what was read, in order, and never more than the allowance. With a declared
   length the capture is complete exactly when that length was stored; without one, exactly when the end of
   the stream was seen before the allowance ran out.
   */
  method Stream(replies: nat -> ReadResult, declared: Option<nat>, allowance: int)
      returns (r: Outcome, n: nat)
    ensures r.stored == Taken(replies, n) && |r.stored| <= (if allowance > 0 then allowance else 0)
    ensures ReadTo(replies, n, |r.stored|)
    ensures r.Raised? <==>
      && |Taken(replies, n)| < allowance
      && (|| replies(n).ReadError? || replies(n).NotBytes?
          || (replies(n).Chunk? && (|| |replies(n).bytes| > 65536
                                    || |Taken(replies, n)| + |replies(n).bytes| > allowance)))
    ensures r.Raised? ==> r.readFailed == replies(n).ReadError?
    ensures r.Captured? ==> (EndSeen(replies, n, allowance) || |r.stored| >= allowance)
    ensures r.Captured? ==>
      (r.state.Complete? <==> if declared.Some? then |r.stored| == declared.value else EndSeen(replies, n, allowance))
    ensures r.Captured? ==> (r.state.Complete? <==> r.reason.None?)
    ensures r.Captured? && r.reason == Some(Framing) <==>
      && r.Captured? && declared.Some?
      && (|r.stored| > declared.value || (|r.stored| < declared.value && EndSeen(replies, n, allowance)))
  {
    n := 0;
    var stored: Bytes, state, reason := [], Partial, Some(ByteLimit);
    while |stored| < allowance
      invariant ReadTo(replies, n, |stored|)
      invariant stored == Taken(replies, n) && |stored| <= (if allowance > 0 then allowance else 0)
      invariant state == Partial && reason == Some(ByteLimit)
      decreases allowance - |stored|
    {
      var asked, result := Least(READ_SIZE, allowance - |stored|), replies(n);
      if result.ReadError? {
        return Raised(true, stored), n;
      }
      if result.Chunk? && result.bytes == [] {
        state, reason := Complete, None;
        break;
      }
      if Overlong(result, asked) {
        return Raised(false, stored), n;
      }
      stored := stored + result.bytes;
      n := n + 1;
    }
    if declared.Some? {
      var size, length := |stored|, declared.value;
      if size == length {
        state, reason := Complete, None;
      } else if size < length && state.Complete? {
        state, reason := Partial, Some(Framing);
      } else if size > length {
        state, reason := Partial, Some(Framing);
      }
    }
    r := Captured(state, reason, stored);
  }
}
