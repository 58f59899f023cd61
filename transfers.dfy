/** The chunked transfer loops of REDString and REDFileBase, as functions of the
    reply stream they consume: which calls they make, in which order, and what they
    return. The handle methods in Objects are proved to do exactly this. */
module Transfers {
  import opened Errors
  import opened Transport
  import opened Chunks

  const MAX_ALLOCATE_BUFFER_LENGTH: nat := 58
  const MAX_SET_CHUNK_BUFFER_LENGTH: nat := 58
  const MAX_GET_CHUNK_BUFFER_LENGTH: nat := 63
  const MAX_READ_BUFFER_LENGTH: nat := 62
  const MAX_READ_ASYNC_BUFFER_LENGTH: nat := 60
  const MAX_WRITE_BUFFER_LENGTH: nat := 61
  const MAX_WRITE_UNCHECKED_BUFFER_LENGTH: nat := 61
  const MAX_WRITE_ASYNC_BUFFER_LENGTH: nat := 61
  const ASYNC_BURST_CHUNKS: nat := 2000

  /** What a loop of checked calls did: its result, the calls it made and the
      replies it left unread. */
  datatype Run<T> = Run(result: Result<T>, calls: seq<Call>, rest: seq<Reply>)

  /** The k-th reply of a stream: Lost past its end. */
  function Nth(replies: seq<Reply>, k: nat): Reply
  {
    if k < |replies| then replies[k] else Lost
  }

  lemma NthTail(replies: seq<Reply>, k: nat)
    ensures Nth(Tail(replies), k) == (if replies == [] then Lost else Nth(replies, k + 1))
  {
  }

  /** The bytes of a sequence of replies, concatenated. */
  function Payload(replies: seq<Reply>): seq<byte>
  {
    if replies == [] then [] else replies[0].Data() + Payload(replies[1..])
  }

  lemma PayloadSnoc(replies: seq<Reply>, k: nat)
    requires k < |replies|
    ensures Payload(replies[..k + 1]) == Payload(replies[..k]) + replies[k].Data()
    decreases k
  {
    if k > 0 {
      assert replies[..k + 1][1..] == replies[1..][..k];
      assert replies[..k][1..] == replies[1..][..k - 1];
      PayloadSnoc(replies[1..], k - 1);
    } else {
      assert replies[..1][1..] == [];
    }
  }

  // ---------------------------------------------------------------- REDString.update

  /** The get_string_chunk loop of REDString.update: while fewer than length bytes
      are held, ask for the chunk at the current length and append it. */
  function GetChunksRun(id: nat, length: nat, acc: seq<byte>, replies: seq<Reply>): (run: Run<seq<byte>>)
    ensures |run.rest| <= |replies|
    decreases |replies|
  {
    if |acc| >= length then Run(Ok(acc), [], replies)
    else
      var r := Head(replies);
      var call := GetStringChunk(id, |acc|);
      if !r.Succeeded() then Run(Err(ReplyFailure(r, ChunkFailed(false, id, |acc|))), [call], Tail(replies))
      else
        var run := GetChunksRun(id, length, acc + r.Data(), Tail(replies));
        run.(calls := [call] + run.calls)
  }

  /** GetChunksRun as the loop runs it: the call log so far is carried along, each
      request appended to it as it is made. */
  function GetChunksLog(id: nat, length: nat, acc: seq<byte>, log: seq<Call>, replies: seq<Reply>): Run<seq<byte>>
    decreases |replies|
  {
    if |acc| >= length then Run(Ok(acc), log, replies)
    else
      var r := Head(replies);
      var call := GetStringChunk(id, |acc|);
      if !r.Succeeded() then Run(Err(ReplyFailure(r, ChunkFailed(false, id, |acc|))), log + [call], Tail(replies))
      else GetChunksLog(id, length, acc + r.Data(), log + [call], Tail(replies))
  }

  /** The logged loop makes the calls of GetChunksRun after those already logged. */
  lemma {:induction false} GetChunksLogged(id: nat, length: nat, acc: seq<byte>, log: seq<Call>, replies: seq<Reply>)
    ensures var run := GetChunksRun(id, length, acc, replies);
            GetChunksLog(id, length, acc, log, replies) == run.(calls := log + run.calls)
    decreases |replies|
  {
    if |acc| >= length {
      assert log + [] == log;
    } else if Head(replies).Succeeded() {
      var call := GetStringChunk(id, |acc|);
      var acc' := acc + Head(replies).Data();
      GetChunksLogged(id, length, acc', log + [call], Tail(replies));
      var sub := GetChunksRun(id, length, acc', Tail(replies));
      assert log + [call] + sub.calls == log + ([call] + sub.calls);
    }
  }

  /** Every call of calls asks for a string chunk. */
  ghost predicate OnlyChunkReads(calls: seq<Call>)
  {
    forall k :: 0 <= k < |calls| ==> calls[k].GetStringChunk?
  }

  /** The chunk loop only ever asks for chunks. */
  lemma {:induction false} GetChunksOnlyReads(id: nat, length: nat, acc: seq<byte>, replies: seq<Reply>)
    ensures OnlyChunkReads(GetChunksRun(id, length, acc, replies).calls)
    decreases |replies|
  {
    if |acc| < length && Head(replies).Succeeded() {
      var sub := GetChunksRun(id, length, acc + Head(replies).Data(), Tail(replies));
      GetChunksOnlyReads(id, length, acc + Head(replies).Data(), Tail(replies));
      var calls := GetChunksRun(id, length, acc, replies).calls;
      assert calls == [GetStringChunk(id, |acc|)] + sub.calls;
      forall k | 0 <= k < |calls| ensures calls[k].GetStringChunk? {
        if k > 0 {
          assert calls[k] == sub.calls[k - 1];
        }
      }
    }
  }

  /** The k-th chunk request asks at the offset of the bytes received so far. */
  lemma {:induction false} GetChunksOffsets(id: nat, length: nat, acc: seq<byte>, replies: seq<Reply>)
    ensures var run := GetChunksRun(id, length, acc, replies);
            |run.calls| <= |replies| + 1 &&
            forall k :: 0 <= k < |run.calls| ==>
              k <= |replies| && run.calls[k] == GetStringChunk(id, |acc| + |Payload(replies[..k])|)
    decreases |replies|
  {
    var run := GetChunksRun(id, length, acc, replies);
    if |acc| < length && Head(replies).Succeeded() {
      var r := replies[0];
      var tail := replies[1..];
      assert Head(replies) == r && Tail(replies) == tail;
      var sub := GetChunksRun(id, length, acc + r.Data(), tail);
      assert run.calls == [GetStringChunk(id, |acc|)] + sub.calls;
      GetChunksOffsets(id, length, acc + r.Data(), tail);
      forall k | 0 <= k < |run.calls|
        ensures k <= |replies| && run.calls[k] == GetStringChunk(id, |acc| + |Payload(replies[..k])|)
      {
        if k == 0 {
          assert replies[..0] == [];
        } else {
          assert sub.calls[k - 1] == GetStringChunk(id, |acc + r.Data()| + |Payload(tail[..k - 1])|);
          ChunkOffsetStep(id, acc, replies, k, sub.calls);
        }
      }
    } else {
      assert replies[..0] == [];
    }
  }

  /** The k-th request of a run is the (k-1)-th of the run after the first reply. */
  lemma ChunkOffsetStep(id: nat, acc: seq<byte>, replies: seq<Reply>, k: nat, later: seq<Call>)
    requires 1 <= k <= |later| && 0 < k <= |replies|
    requires later[k - 1] == GetStringChunk(id, |acc + replies[0].Data()| + |Payload(replies[1..][..k - 1])|)
    ensures k <= |replies| && ([GetStringChunk(id, |acc|)] + later)[k] == GetStringChunk(id, |acc| + |Payload(replies[..k])|)
  {
    PayloadCons(replies, k);
  }

  lemma PayloadCons(replies: seq<Reply>, k: nat)
    requires 1 <= k <= |replies|
    ensures Payload(replies[..k]) == replies[0].Data() + Payload(replies[1..][..k - 1])
  {
    assert replies[..k][1..] == replies[1..][..k - 1];
  }

  /** On success the string is everything received and at least length bytes, and
      the loop read exactly one reply per request. */
  lemma {:induction false} GetChunksResult(id: nat, length: nat, acc: seq<byte>, replies: seq<Reply>)
    ensures var run := GetChunksRun(id, length, acc, replies);
            run.result.Ok? ==>
              |run.calls| <= |replies| &&
              run.result.value == acc + Payload(replies[..|run.calls|]) &&
              |run.result.value| >= length &&
              run.rest == replies[|run.calls|..]
    decreases |replies|
  {
    var run := GetChunksRun(id, length, acc, replies);
    if |acc| >= length {
      assert replies[..0] == [];
      assert acc + [] == acc;
    } else if Head(replies).Succeeded() {
      var r := replies[0];
      var tail := replies[1..];
      GetChunksResult(id, length, acc + r.Data(), tail);
      var sub := GetChunksRun(id, length, acc + r.Data(), tail);
      if run.result.Ok? {
        var n := |run.calls|;
        assert n == 1 + |sub.calls|;
        assert replies[..n][1..] == tail[..n - 1];
        assert acc + Payload(replies[..n]) == (acc + r.Data()) + Payload(tail[..n - 1]);
        assert replies[n..] == tail[n - 1..];
      }
    }
  }

  /** A chunk loop that succeeds got a success reply to every request. */
  lemma {:induction false} GetChunksAllSucceeded(id: nat, length: nat, acc: seq<byte>, replies: seq<Reply>)
    ensures var run := GetChunksRun(id, length, acc, replies);
            run.result.Ok? ==> forall k :: 0 <= k < |run.calls| ==> Nth(replies, k).Succeeded()
    decreases |replies|
  {
    var run := GetChunksRun(id, length, acc, replies);
    if |acc| < length && Head(replies).Succeeded() && run.result.Ok? {
      var tail := replies[1..];
      GetChunksAllSucceeded(id, length, acc + replies[0].Data(), tail);
      forall k | 0 <= k < |run.calls| ensures Nth(replies, k).Succeeded() {
        if k > 0 {
          NthTail(replies, k - 1);
        }
      }
    }
  }

  /** REDString.update as a whole: the length request, then the chunk loop. */
  function StringUpdateRun(id: nat, replies: seq<Reply>): (run: Run<seq<byte>>)
    ensures |run.calls| >= 1 && run.calls[0] == GetStringLength(id)
  {
    var r := Head(replies);
    if !r.Succeeded() then
      Run(Err(ReplyFailure(r, QueryFailed(GetLengthOf, StringNoun, id))), [GetStringLength(id)], Tail(replies))
    else
      var run := GetChunksRun(id, r.Value(0), [], Tail(replies));
      run.(calls := [GetStringLength(id)] + run.calls)
  }

  /** A string update that succeeds read at least the announced length, and its data
      is exactly the chunks received. */
  lemma StringUpdateReadsAll(id: nat, replies: seq<Reply>)
    ensures var run := StringUpdateRun(id, replies);
            run.result.Ok? ==>
              Head(replies).Succeeded() &&
              |run.result.value| >= Head(replies).Value(0) &&
              |run.calls| - 1 <= |Tail(replies)| &&
              run.result.value == Payload(Tail(replies)[..|run.calls| - 1])
  {
    var run := StringUpdateRun(id, replies);
    if Head(replies).Succeeded() && run.result.Ok? {
      var tail := Tail(replies);
      var sub := GetChunksRun(id, Head(replies).Value(0), [], tail);
      GetChunksResult(id, Head(replies).Value(0), [], tail);
      assert [] + Payload(tail[..|sub.calls|]) == Payload(tail[..|sub.calls|]);
    }
  }

  /** After the length, a string update asks for each chunk at the number of bytes
      received before it. */
  lemma StringUpdateAsksInOrder(id: nat, replies: seq<Reply>)
    ensures var run := StringUpdateRun(id, replies);
            Head(replies).Succeeded() ==>
              forall k :: 1 <= k < |run.calls| ==>
                k - 1 <= |Tail(replies)| && run.calls[k] == GetStringChunk(id, |Payload(Tail(replies)[..k - 1])|)
  {
    var run := StringUpdateRun(id, replies);
    if Head(replies).Succeeded() {
      var tail := Tail(replies);
      var sub := GetChunksRun(id, Head(replies).Value(0), [], tail);
      GetChunksOffsets(id, Head(replies).Value(0), [], tail);
      forall k | 1 <= k < |run.calls|
        ensures k - 1 <= |tail| && run.calls[k] == GetStringChunk(id, |Payload(tail[..k - 1])|)
      {
        assert run.calls[k] == sub.calls[k - 1];
      }
    }
  }

  // -------------------------------------------------------------- REDString.allocate

  /** The set_string_chunk calls for pieces of a string. */
  function SetChunkCalls(id: nat, ps: seq<Piece>): (calls: seq<Call>)
    ensures |calls| == |ps|
    ensures forall k :: 0 <= k < |ps| ==> calls[k] == SetStringChunk(id, ps[k].offset, ps[k].bytes)
  {
    if ps == [] then [] else [SetStringChunk(id, ps[0].offset, ps[0].bytes)] + SetChunkCalls(id, ps[1..])
  }

  /** The set_string_chunk loop of REDString.allocate: send the remaining bytes in
      pieces of at most 58 at increasing offsets, stopping at the first failure.
      On success the result is the offset reached. */
  function SetChunksRun(id: nat, remaining: seq<byte>, offset: nat, replies: seq<Reply>): (run: Run<nat>)
    decreases |remaining|
  {
    if remaining == [] then Run(Ok(offset), [], replies)
    else
      var n := Min(MAX_SET_CHUNK_BUFFER_LENGTH, |remaining|);
      var call := SetStringChunk(id, offset, remaining[..n]);
      var r := Head(replies);
      if !r.Succeeded() then Run(Err(ReplyFailure(r, ChunkFailed(true, id, offset))), [call], Tail(replies))
      else
        var run := SetChunksRun(id, remaining[n..], offset + n, Tail(replies));
        run.(calls := [call] + run.calls)
  }

  /** SetChunksRun with the call log carried along. */
  function SetChunksLog(id: nat, remaining: seq<byte>, offset: nat, log: seq<Call>, replies: seq<Reply>): Run<nat>
    decreases |remaining|
  {
    if remaining == [] then Run(Ok(offset), log, replies)
    else
      var n := Min(MAX_SET_CHUNK_BUFFER_LENGTH, |remaining|);
      var call := SetStringChunk(id, offset, remaining[..n]);
      var r := Head(replies);
      if !r.Succeeded() then Run(Err(ReplyFailure(r, ChunkFailed(true, id, offset))), log + [call], Tail(replies))
      else SetChunksLog(id, remaining[n..], offset + n, log + [call], Tail(replies))
  }

  lemma {:induction false} SetChunksLogged(id: nat, remaining: seq<byte>, offset: nat, log: seq<Call>, replies: seq<Reply>)
    ensures var run := SetChunksRun(id, remaining, offset, replies);
            SetChunksLog(id, remaining, offset, log, replies) == run.(calls := log + run.calls)
    decreases |remaining|
  {
    if remaining == [] {
      assert log + [] == log;
    } else if Head(replies).Succeeded() {
      var n := Min(MAX_SET_CHUNK_BUFFER_LENGTH, |remaining|);
      var call := SetStringChunk(id, offset, remaining[..n]);
      SetChunksLogged(id, remaining[n..], offset + n, log + [call], Tail(replies));
      var sub := SetChunksRun(id, remaining[n..], offset + n, Tail(replies));
      assert log + [call] + sub.calls == log + ([call] + sub.calls);
    }
  }

  lemma SetChunkCallsCons(id: nat, p: Piece, qs: seq<Piece>)
    ensures SetChunkCalls(id, [p] + qs) == [SetStringChunk(id, p.offset, p.bytes)] + SetChunkCalls(id, qs)
  {
    assert ([p] + qs)[1..] == qs;
  }

  lemma PrefixCons(x: Call, a: seq<Call>, b: seq<Call>)
    requires a <= b
    ensures [x] + a <= [x] + b
  {
    assert ([x] + b)[..|a| + 1] == [x] + a;
  }

  /** The chunk calls follow the piece plan: they are a prefix of it. */
  lemma {:induction false} SetChunksFollowPlan(id: nat, remaining: seq<byte>, offset: nat, replies: seq<Reply>)
    ensures SetChunksRun(id, remaining, offset, replies).calls <=
            SetChunkCalls(id, Pieces(remaining, MAX_SET_CHUNK_BUFFER_LENGTH, offset))
    decreases |remaining|
  {
    if remaining != [] {
      var n := Min(MAX_SET_CHUNK_BUFFER_LENGTH, |remaining|);
      var qs := Pieces(remaining[n..], MAX_SET_CHUNK_BUFFER_LENGTH, offset + n);
      var call := SetStringChunk(id, offset, remaining[..n]);
      assert Pieces(remaining, MAX_SET_CHUNK_BUFFER_LENGTH, offset) == [Piece(offset, remaining[..n])] + qs;
      SetChunkCallsCons(id, Piece(offset, remaining[..n]), qs);
      if Head(replies).Succeeded() {
        var sub := SetChunksRun(id, remaining[n..], offset + n, Tail(replies));
        SetChunksFollowPlan(id, remaining[n..], offset + n, Tail(replies));
        PrefixCons(call, sub.calls, SetChunkCalls(id, qs));
      } else {
        PrefixCons(call, [], SetChunkCalls(id, qs));
        assert [call] + [] == [call];
      }
    }
  }

  /** A run that succeeds made every planned call and reached the end of the data. */
  lemma {:induction false} SetChunksComplete(id: nat, remaining: seq<byte>, offset: nat, replies: seq<Reply>)
    ensures var run := SetChunksRun(id, remaining, offset, replies);
            run.result.Ok? ==>
              run.calls == SetChunkCalls(id, Pieces(remaining, MAX_SET_CHUNK_BUFFER_LENGTH, offset)) &&
              run.result.value == offset + |remaining|
    decreases |remaining|
  {
    if remaining != [] && Head(replies).Succeeded() {
      var n := Min(MAX_SET_CHUNK_BUFFER_LENGTH, |remaining|);
      var qs := Pieces(remaining[n..], MAX_SET_CHUNK_BUFFER_LENGTH, offset + n);
      assert Pieces(remaining, MAX_SET_CHUNK_BUFFER_LENGTH, offset) == [Piece(offset, remaining[..n])] + qs;
      SetChunkCallsCons(id, Piece(offset, remaining[..n]), qs);
      SetChunksComplete(id, remaining[n..], offset + n, Tail(replies));
    }
  }

  /** The run succeeds exactly when the reply to every planned piece succeeds. */
  lemma {:induction false} SetChunksSucceedIff(id: nat, remaining: seq<byte>, offset: nat, replies: seq<Reply>)
    ensures var run := SetChunksRun(id, remaining, offset, replies);
            var ps := Pieces(remaining, MAX_SET_CHUNK_BUFFER_LENGTH, offset);
            run.result.Ok? <==> forall k :: 0 <= k < |ps| ==> Nth(replies, k).Succeeded()
    decreases |remaining|
  {
    if remaining != [] {
      var n := Min(MAX_SET_CHUNK_BUFFER_LENGTH, |remaining|);
      var ps := Pieces(remaining, MAX_SET_CHUNK_BUFFER_LENGTH, offset);
      var qs := Pieces(remaining[n..], MAX_SET_CHUNK_BUFFER_LENGTH, offset + n);
      assert ps == [Piece(offset, remaining[..n])] + qs;
      assert |ps| == |qs| + 1;
      assert Nth(replies, 0) == Head(replies);
      if Head(replies).Succeeded() {
        SetChunksSucceedIff(id, remaining[n..], offset + n, Tail(replies));
        forall k | 1 <= k < |ps| ensures Nth(replies, k) == Nth(Tail(replies), k - 1) {
          NthTail(replies, k - 1);
        }
        if forall k :: 0 <= k < |qs| ==> Nth(Tail(replies), k).Succeeded() {
          forall k | 0 <= k < |ps| ensures Nth(replies, k).Succeeded() {
            if k > 0 {
              assert Nth(Tail(replies), k - 1).Succeeded();
            }
          }
        } else {
          var k :| 0 <= k < |qs| && !Nth(Tail(replies), k).Succeeded();
          assert !Nth(replies, k + 1).Succeeded();
        }
      }
    }
  }

  /** REDString.allocate on data: the allocate call carries the first 58 bytes, and
      the set-chunk pieces carry the rest, each at the offset of the bytes before it,
      so that the two together give back the data. */
  lemma AllocatePlan(data: seq<byte>)
    ensures var first := data[..Min(MAX_ALLOCATE_BUFFER_LENGTH, |data|)];
            var ps := Pieces(data[|first|..], MAX_SET_CHUNK_BUFFER_LENGTH, |first|);
            first + Join(ps) == data &&
            forall i :: 0 <= i < |ps| ==> ps[i].offset == |first| + |Join(ps[..i])|
  {
    var first := data[..Min(MAX_ALLOCATE_BUFFER_LENGTH, |data|)];
    var ps := Pieces(data[|first|..], MAX_SET_CHUNK_BUFFER_LENGTH, |first|);
    PiecesJoin(data[|first|..], MAX_SET_CHUNK_BUFFER_LENGTH, |first|);
    assert first + data[|first|..] == data;
    forall i | 0 <= i < |ps| ensures ps[i].offset == |first| + |Join(ps[..i])| {
      PiecesShape(data[|first|..], MAX_SET_CHUNK_BUFFER_LENGTH, |first|, i);
    }
  }

  /** 130 bytes: one allocate call with 58 bytes, then set-chunk calls of 58 and 14
      bytes at offsets 58 and 116. */
  lemma AllocateOf130(data: seq<byte>)
    requires |data| == 130
    ensures var ps := Pieces(data[58..], MAX_SET_CHUNK_BUFFER_LENGTH, 58);
            |ps| == 2 && ps[0].offset == 58 && |ps[0].bytes| == 58 && ps[1].offset == 116 && |ps[1].bytes| == 14
  {
    var rest := data[58..];
    assert rest[58..][14..] == [];
    assert Pieces(rest[58..][14..], MAX_SET_CHUNK_BUFFER_LENGTH, 130) == [];
  }

  // ------------------------------------------------------------------ REDFileBase.read

  function Take(bytes: seq<byte>, n: nat): (t: seq<byte>)
    ensures |t| == Min(n, |bytes|) && t == bytes[..|t|]
  {
    if n <= |bytes| then bytes[..n] else bytes
  }

  /** The read_file loop of REDFileBase.read: ask for min(length, 62) bytes, stop at
      a zero-length reply, append what arrived and count it off length. */
  function ReadRun(id: nat, length: int, acc: seq<byte>, replies: seq<Reply>): (run: Run<seq<byte>>)
    decreases |replies|
  {
    if length <= 0 then Run(Ok(acc), [], replies)
    else
      var call := ReadFile(id, Min(length, MAX_READ_BUFFER_LENGTH));
      var r := Head(replies);
      if !r.Succeeded() then Run(Err(ReplyFailure(r, QueryFailed(ReadFrom, FileNoun, id))), [call], Tail(replies))
      else if r.Value(0) == 0 then Run(Ok(acc), [call], Tail(replies))
      else
        var run := ReadRun(id, length - r.Value(0), acc + Take(r.bytes, r.Value(0)), Tail(replies));
        run.(calls := [call] + run.calls)
  }

  /** ReadRun with the call log carried along. */
  function ReadLog(id: nat, length: int, acc: seq<byte>, log: seq<Call>, replies: seq<Reply>): Run<seq<byte>>
    decreases |replies|
  {
    if length <= 0 then Run(Ok(acc), log, replies)
    else
      var call := ReadFile(id, Min(length, MAX_READ_BUFFER_LENGTH));
      var r := Head(replies);
      if !r.Succeeded() then Run(Err(ReplyFailure(r, QueryFailed(ReadFrom, FileNoun, id))), log + [call], Tail(replies))
      else if r.Value(0) == 0 then Run(Ok(acc), log + [call], Tail(replies))
      else ReadLog(id, length - r.Value(0), acc + Take(r.bytes, r.Value(0)), log + [call], Tail(replies))
  }

  lemma {:induction false} ReadLogged(id: nat, length: int, acc: seq<byte>, log: seq<Call>, replies: seq<Reply>)
    ensures var run := ReadRun(id, length, acc, replies);
            ReadLog(id, length, acc, log, replies) == run.(calls := log + run.calls)
    decreases |replies|
  {
    if length <= 0 {
      assert log + [] == log;
    } else if Head(replies).Succeeded() && Head(replies).Value(0) != 0 {
      var r := Head(replies);
      var call := ReadFile(id, Min(length, MAX_READ_BUFFER_LENGTH));
      ReadLogged(id, length - r.Value(0), acc + Take(r.bytes, r.Value(0)), log + [call], Tail(replies));
      var sub := ReadRun(id, length - r.Value(0), acc + Take(r.bytes, r.Value(0)), Tail(replies));
      assert log + [call] + sub.calls == log + ([call] + sub.calls);
    }
  }

  /** Every call of calls is a read of file id asking for between 1 and 62 bytes,
      and never for more than length. */
  ghost predicate ReadsWithin(calls: seq<Call>, id: nat, length: int)
  {
    forall k :: 0 <= k < |calls| ==>
      calls[k].ReadFile? && calls[k].fileId == id &&
      1 <= calls[k].lengthToRead <= MAX_READ_BUFFER_LENGTH && calls[k].lengthToRead <= length
  }

  /** No reply reports more bytes than its read asked for. */
  ghost predicate AnsweredWithin(calls: seq<Call>, replies: seq<Reply>)
  {
    forall k :: 0 <= k < |calls| ==> calls[k].ReadFile? && Nth(replies, k).Value(0) <= calls[k].lengthToRead
  }

  /** Every read asks for min(wanted, 62) bytes, never more than are still wanted. */
  lemma {:induction false} ReadAsks(id: nat, length: int, acc: seq<byte>, replies: seq<Reply>)
    ensures ReadsWithin(ReadRun(id, length, acc, replies).calls, id, length)
    decreases |replies|
  {
    if length > 0 && Head(replies).Succeeded() && Head(replies).Value(0) != 0 {
      var r := replies[0];
      var run := ReadRun(id, length, acc, replies);
      var got := acc + Take(r.bytes, r.Value(0));
      ReadAsks(id, length - r.Value(0), got, replies[1..]);
      var sub := ReadRun(id, length - r.Value(0), got, replies[1..]);
      assert run.calls == [ReadFile(id, Min(length, MAX_READ_BUFFER_LENGTH))] + sub.calls;
      forall k | 1 <= k < |run.calls| ensures run.calls[k] == sub.calls[k - 1] {
      }
    }
  }

  lemma AnsweredWithinTail(call: Call, calls: seq<Call>, replies: seq<Reply>)
    requires replies != [] && AnsweredWithin([call] + calls, replies)
    ensures AnsweredWithin(calls, replies[1..])
  {
    forall k | 0 <= k < |calls|
      ensures calls[k].ReadFile? && Nth(replies[1..], k).Value(0) <= calls[k].lengthToRead
    {
      assert ([call] + calls)[k + 1] == calls[k];
    }
  }

  /** When no reply reports more bytes than its read asked for, a read that succeeds
      returns what it held before plus at most length bytes. */
  lemma {:induction false} ReadBounded(id: nat, length: int, acc: seq<byte>, replies: seq<Reply>)
    ensures var run := ReadRun(id, length, acc, replies);
            AnsweredWithin(run.calls, replies) && run.result.Ok? ==>
              acc <= run.result.value && |run.result.value| <= |acc| + (if length < 0 then 0 else length)
    decreases |replies|
  {
    var run := ReadRun(id, length, acc, replies);
    if length > 0 && Head(replies).Succeeded() && Head(replies).Value(0) != 0 && AnsweredWithin(run.calls, replies) {
      var r := replies[0];
      var got := acc + Take(r.bytes, r.Value(0));
      var call := ReadFile(id, Min(length, MAX_READ_BUFFER_LENGTH));
      var sub := ReadRun(id, length - r.Value(0), got, replies[1..]);
      assert run.calls == [call] + sub.calls;
      assert run.calls[0] == call;
      assert r.Value(0) <= Min(length, MAX_READ_BUFFER_LENGTH);
      AnsweredWithinTail(call, sub.calls, replies);
      ReadBounded(id, length - r.Value(0), got, replies[1..]);
    }
  }

  // ----------------------------------------------------------------- REDFileBase.write

  /** The write_file loop of REDFileBase.write: send the next 61-byte padded chunk
      and drop as many bytes as the server reports written. */
  function WriteRun(id: nat, remaining: seq<byte>, replies: seq<Reply>): (run: Run<bool>)
    decreases |replies|
  {
    if remaining == [] then Run(Ok(true), [], replies)
    else
      var (chunk, n) := ZeroPaddedChunk(remaining, MAX_WRITE_BUFFER_LENGTH, 0);
      var call := WriteFile(id, chunk, n);
      var r := Head(replies);
      if !r.Succeeded() then Run(Err(ReplyFailure(r, QueryFailed(WriteTo, FileNoun, id))), [call], Tail(replies))
      else
        var written := r.Value(0);
        var run := WriteRun(id, if written <= |remaining| then remaining[written..] else [], Tail(replies));
        run.(calls := [call] + run.calls)
  }

  /** WriteRun with the call log carried along. */
  function WriteLog(id: nat, remaining: seq<byte>, log: seq<Call>, replies: seq<Reply>): Run<bool>
    decreases |replies|
  {
    if remaining == [] then Run(Ok(true), log, replies)
    else
      var (chunk, n) := ZeroPaddedChunk(remaining, MAX_WRITE_BUFFER_LENGTH, 0);
      var call := WriteFile(id, chunk, n);
      var r := Head(replies);
      if !r.Succeeded() then Run(Err(ReplyFailure(r, QueryFailed(WriteTo, FileNoun, id))), log + [call], Tail(replies))
      else
        var written := r.Value(0);
        WriteLog(id, if written <= |remaining| then remaining[written..] else [], log + [call], Tail(replies))
  }

  lemma {:induction false} WriteLogged(id: nat, remaining: seq<byte>, log: seq<Call>, replies: seq<Reply>)
    ensures var run := WriteRun(id, remaining, replies);
            WriteLog(id, remaining, log, replies) == run.(calls := log + run.calls)
    decreases |replies|
  {
    if remaining == [] {
      assert log + [] == log;
    } else if Head(replies).Succeeded() {
      var (chunk, n) := ZeroPaddedChunk(remaining, MAX_WRITE_BUFFER_LENGTH, 0);
      var call := WriteFile(id, chunk, n);
      var written := Head(replies).Value(0);
      var rest := if written <= |remaining| then remaining[written..] else [];
      var sub := WriteRun(id, rest, Tail(replies));
      assert WriteRun(id, remaining, replies) == sub.(calls := [call] + sub.calls);
      assert WriteLog(id, remaining, log, replies) == WriteLog(id, rest, log + [call], Tail(replies));
      WriteLogged(id, rest, log + [call], Tail(replies));
      assert log + [call] + sub.calls == log + ([call] + sub.calls);
    }
  }

  /** The write_file calls that send pieces of 61 bytes, each padded with zeros. */
  function WriteCalls(id: nat, ps: seq<Piece>): (calls: seq<Call>)
    ensures |calls| == |ps|
  {
    if ps == [] then []
    else
      var (chunk, n) := ZeroPaddedChunk(ps[0].bytes, MAX_WRITE_BUFFER_LENGTH, 0);
      [WriteFile(id, chunk, n)] + WriteCalls(id, ps[1..])
  }

  /** The server acknowledges every chunk in full. */
  ghost predicate FullyAcknowledged(remaining: seq<byte>, replies: seq<Reply>)
    decreases |remaining|
  {
    remaining != [] ==>
      var n := Min(MAX_WRITE_BUFFER_LENGTH, |remaining|);
      Head(replies).Succeeded() && Head(replies).Value(0) == n && FullyAcknowledged(remaining[n..], Tail(replies))
  }

  /** When every chunk is written in full, write sends the data as consecutive
      61-byte pieces and succeeds. */
  lemma {:induction false} FullWriteSendsPieces(id: nat, data: seq<byte>, offset: nat, replies: seq<Reply>)
    requires FullyAcknowledged(data, replies)
    ensures var run := WriteRun(id, data, replies);
            run.result == Ok(true) && run.calls == WriteCalls(id, Pieces(data, MAX_WRITE_BUFFER_LENGTH, offset))
    decreases |data|
  {
    if data != [] {
      var n := Min(MAX_WRITE_BUFFER_LENGTH, |data|);
      FullWriteSendsPieces(id, data[n..], offset + n, Tail(replies));
      var ps := Pieces(data, MAX_WRITE_BUFFER_LENGTH, offset);
      assert ps[0] == Piece(offset, data[..n]);
      assert ps[1..] == Pieces(data[n..], MAX_WRITE_BUFFER_LENGTH, offset + n);
      var a := ZeroPaddedChunk(data, MAX_WRITE_BUFFER_LENGTH, 0);
      var b := ZeroPaddedChunk(data[..n], MAX_WRITE_BUFFER_LENGTH, 0);
      assert a.0 == b.0 by {
        forall i | 0 <= i < MAX_WRITE_BUFFER_LENGTH ensures a.0[i] == b.0[i] {
          if i < n {
            assert b.0[i] == data[..n][i];
          }
        }
      }
    }
  }

  /** A reply that reports nothing written makes write send the very same chunk
      again: progress depends on the server reporting a positive length. */
  lemma ZeroWrittenRepeats(id: nat, remaining: seq<byte>, replies: seq<Reply>)
    requires remaining != [] && |replies| >= 2
    requires replies[0].Succeeded() && replies[0].Value(0) == 0
    ensures var run := WriteRun(id, remaining, replies);
            |run.calls| >= 2 && run.calls[1] == run.calls[0]
  {
  }

  // ------------------------------------------------ REDFileBase._next_write_async_burst

  /** The unchecked writes of one burst, from written on: while fewer than 1999 were
      sent and more than 61 bytes remain, the next 61 bytes; then the written count
      they reach. */
  function BurstWrites(id: nat, data: seq<byte>, written: nat, count: nat): (r: (seq<Call>, nat))
    requires count <= ASYNC_BURST_CHUNKS - 1
    ensures written <= r.1
    decreases ASYNC_BURST_CHUNKS - 1 - count
  {
    if count < ASYNC_BURST_CHUNKS - 1 && |data| - written > MAX_WRITE_ASYNC_BUFFER_LENGTH then
      var (chunk, n) := ZeroPaddedChunk(data, MAX_WRITE_UNCHECKED_BUFFER_LENGTH, written);
      var (rest, reached) := BurstWrites(id, data, written + n, count + 1);
      ([WriteFileUnchecked(id, chunk, n)] + rest, reached)
    else ([], written)
  }

  /** BurstWrites with the call log carried along. */
  function BurstLog(id: nat, data: seq<byte>, written: nat, count: nat, log: seq<Call>): (seq<Call>, nat)
    requires count <= ASYNC_BURST_CHUNKS - 1
    decreases ASYNC_BURST_CHUNKS - 1 - count
  {
    if count < ASYNC_BURST_CHUNKS - 1 && |data| - written > MAX_WRITE_ASYNC_BUFFER_LENGTH then
      var (chunk, n) := ZeroPaddedChunk(data, MAX_WRITE_UNCHECKED_BUFFER_LENGTH, written);
      BurstLog(id, data, written + n, count + 1, log + [WriteFileUnchecked(id, chunk, n)])
    else (log, written)
  }

  lemma {:induction false} BurstLogged(id: nat, data: seq<byte>, written: nat, count: nat, log: seq<Call>)
    requires count <= ASYNC_BURST_CHUNKS - 1
    ensures var (writes, reached) := BurstWrites(id, data, written, count);
            BurstLog(id, data, written, count, log) == (log + writes, reached)
    decreases ASYNC_BURST_CHUNKS - 1 - count
  {
    if count < ASYNC_BURST_CHUNKS - 1 && |data| - written > MAX_WRITE_ASYNC_BUFFER_LENGTH {
      var (chunk, n) := ZeroPaddedChunk(data, MAX_WRITE_UNCHECKED_BUFFER_LENGTH, written);
      var call := WriteFileUnchecked(id, chunk, n);
      BurstLogged(id, data, written + n, count + 1, log + [call]);
      var (rest, reached) := BurstWrites(id, data, written + n, count + 1);
      assert log + [call] + rest == log + ([call] + rest);
    } else {
      assert log + [] == log;
    }
  }

  /** The final acknowledged write of a burst, for the bytes from written on. */
  function AsyncWrite(id: nat, data: seq<byte>, written: nat): Call
  {
    var (chunk, n) := ZeroPaddedChunk(data, MAX_WRITE_ASYNC_BUFFER_LENGTH, written);
    WriteFileAsync(id, chunk, n)
  }

  /** The number of unchecked writes a burst makes when remaining bytes are left
      to write and count writes were already made. */
  function BurstCount(remaining: int, count: nat): nat
    requires count <= ASYNC_BURST_CHUNKS - 1
  {
    Min(ASYNC_BURST_CHUNKS - 1 - count,
        if remaining <= MAX_WRITE_ASYNC_BUFFER_LENGTH then 0 else (remaining - 1) / MAX_WRITE_ASYNC_BUFFER_LENGTH)
  }

  lemma BurstCountStep(remaining: int, count: nat)
    requires count < ASYNC_BURST_CHUNKS - 1 && remaining > MAX_WRITE_ASYNC_BUFFER_LENGTH
    ensures BurstCount(remaining, count) == 1 + BurstCount(remaining - 61, count + 1)
  {
    if remaining - 61 > 61 {
      assert (remaining - 61 - 1) / 61 == (remaining - 1) / 61 - 1;
    }
  }

  /** A burst makes min(1999 - count, (remaining - 1) / 61) unchecked writes (none if
      at most 61 bytes remain), each of 61 bytes, and advances written by that many
      bytes. */
  lemma {:induction false} BurstLength(id: nat, data: seq<byte>, written: nat, count: nat)
    requires count <= ASYNC_BURST_CHUNKS - 1
    ensures var (writes, reached) := BurstWrites(id, data, written, count);
            |writes| == BurstCount(|data| - written, count) &&
            reached == written + MAX_WRITE_UNCHECKED_BUFFER_LENGTH * |writes|
    decreases ASYNC_BURST_CHUNKS - 1 - count
  {
    if count < ASYNC_BURST_CHUNKS - 1 && |data| - written > MAX_WRITE_ASYNC_BUFFER_LENGTH {
      BurstLength(id, data, written + 61, count + 1);
      BurstCountStep(|data| - written, count);
    }
  }

  /** The i-th unchecked write sends the 61 bytes at written + 61 * i, and is only made
      while more than 61 bytes remain after them. */
  lemma {:induction false} BurstWritesAreFull(id: nat, data: seq<byte>, written: nat, count: nat, i: nat)
    requires count <= ASYNC_BURST_CHUNKS - 1
    requires i < |BurstWrites(id, data, written, count).0|
    ensures BurstWrites(id, data, written, count).0[i] ==
            WriteFileUnchecked(id, ZeroPaddedChunk(data, MAX_WRITE_UNCHECKED_BUFFER_LENGTH, written + 61 * i).0, 61)
    ensures |data| - (written + 61 * i) > MAX_WRITE_ASYNC_BUFFER_LENGTH
    decreases ASYNC_BURST_CHUNKS - 1 - count
  {
    if i > 0 {
      BurstWritesAreFull(id, data, written + 61, count + 1, i - 1);
    }
  }

  /** A burst stops early only when the 1999-write limit is reached; otherwise at
      most 61 bytes are left for its acknowledged write. */
  lemma {:induction false} BurstLeavesLastChunk(id: nat, data: seq<byte>, written: nat, count: nat)
    requires count <= ASYNC_BURST_CHUNKS - 1
    ensures var (writes, reached) := BurstWrites(id, data, written, count);
            count + |writes| < ASYNC_BURST_CHUNKS - 1 ==> |data| - reached <= MAX_WRITE_ASYNC_BUFFER_LENGTH
    decreases ASYNC_BURST_CHUNKS - 1 - count
  {
    if count < ASYNC_BURST_CHUNKS - 1 && |data| - written > MAX_WRITE_ASYNC_BUFFER_LENGTH {
      BurstLeavesLastChunk(id, data, written + 61, count + 1);
    }
  }

  // ------------------------------------------------------------------- the loops

  /** The get_string_chunk loop of REDString.update, run against the brick. */
  method GetChunks(brick: Brick, id: nat, length: nat) returns (result: Result<seq<byte>>)
    modifies brick`calls, brick`script
    ensures var run := GetChunksRun(id, length, [], old(brick.Stream()));
            brick.calls == old(brick.calls) + run.calls && brick.Stream() == run.rest && result == run.result
  {
    var text: seq<byte> := [];
    ghost var full := GetChunksLog(id, length, [], brick.calls, brick.Stream());
    GetChunksLogged(id, length, [], brick.calls, brick.Stream());
    while |text| < length
      invariant GetChunksLog(id, length, text, brick.calls, brick.Stream()) == full
      decreases |brick.Stream()|
    {
      var c := brick.Request(GetStringChunk(id, |text|));
      if !c.Succeeded() {
        return Err(ReplyFailure(c, ChunkFailed(false, id, |text|)));
      }
      text := text + c.Data();
    }
    result := Ok(text);
  }

  /** The set_string_chunk loop of REDString.allocate, run against the brick. */
  method SetChunks(brick: Brick, id: nat, data: seq<byte>, start: nat) returns (result: Result<nat>)
    modifies brick`calls, brick`script
    ensures var run := SetChunksRun(id, data, start, old(brick.Stream()));
            brick.calls == old(brick.calls) + run.calls && brick.Stream() == run.rest && result == run.result
  {
    var remaining := data;
    var offset: nat := start;
    ghost var full := SetChunksLog(id, data, start, brick.calls, brick.Stream());
    SetChunksLogged(id, data, start, brick.calls, brick.Stream());
    while |remaining| > 0
      invariant SetChunksLog(id, remaining, offset, brick.calls, brick.Stream()) == full
      decreases |remaining|
    {
      var n := Min(MAX_SET_CHUNK_BUFFER_LENGTH, |remaining|);
      var c := brick.Request(SetStringChunk(id, offset, remaining[..n]));
      if !c.Succeeded() {
        return Err(ReplyFailure(c, ChunkFailed(true, id, offset)));
      }
      remaining := remaining[n..];
      offset := offset + n;
    }
    result := Ok(offset);
  }

  /** The write_file loop of REDFileBase.write, run against the brick. */
  method WriteChunks(brick: Brick, id: nat, data: seq<byte>) returns (result: Result<bool>)
    modifies brick`calls, brick`script
    ensures var run := WriteRun(id, data, old(brick.Stream()));
            brick.calls == old(brick.calls) + run.calls && brick.Stream() == run.rest && result == run.result
  {
    var remaining := data;
    ghost var full := WriteLog(id, data, brick.calls, brick.Stream());
    WriteLogged(id, data, brick.calls, brick.Stream());
    while |remaining| > 0
      invariant WriteLog(id, remaining, brick.calls, brick.Stream()) == full
      decreases |brick.Stream()|
    {
      var (chunk, n) := ZeroPaddedChunk(remaining, MAX_WRITE_BUFFER_LENGTH, 0);
      var r := brick.Request(WriteFile(id, chunk, n));
      if !r.Succeeded() {
        return Err(ReplyFailure(r, QueryFailed(WriteTo, FileNoun, id)));
      }
      var written := r.Value(0);
      remaining := if written <= |remaining| then remaining[written..] else [];
    }
    result := Ok(true);
  }

  /** The read_file loop of REDFileBase.read, run against the brick. */
  method ReadChunks(brick: Brick, id: nat, length: int) returns (result: Result<seq<byte>>)
    modifies brick`calls, brick`script
    ensures var run := ReadRun(id, length, [], old(brick.Stream()));
            brick.calls == old(brick.calls) + run.calls && brick.Stream() == run.rest && result == run.result
  {
    var wanted := length;
    var data: seq<byte> := [];
    ghost var full := ReadLog(id, length, [], brick.calls, brick.Stream());
    ReadLogged(id, length, [], brick.calls, brick.Stream());
    while wanted > 0
      invariant ReadLog(id, wanted, data, brick.calls, brick.Stream()) == full
      decreases |brick.Stream()|
    {
      var r := brick.Request(ReadFile(id, Min(wanted, MAX_READ_BUFFER_LENGTH)));
      if !r.Succeeded() {
        return Err(ReplyFailure(r, QueryFailed(ReadFrom, FileNoun, id)));
      }
      if r.Value(0) == 0 {
        return Ok(data);
      }
      data := data + Take(r.bytes, r.Value(0));
      wanted := wanted - r.Value(0);
    }
    result := Ok(data);
  }

  /** The unchecked writes of one asynchronous burst, from written on. On a
      connected brick they are all sent and the count reached is returned; otherwise
      the first send raises, and a burst without unchecked writes sends nothing. */
  method SendBurst(brick: Brick, id: nat, data: seq<byte>, from: nat) returns (sent: bool, written: nat)
    modifies brick`calls
    ensures var (writes, reached) := BurstWrites(id, data, from, 0);
            (brick.connected ==> sent && written == reached && brick.calls == old(brick.calls) + writes) &&
            (!brick.connected ==> (sent <==> writes == []) && written == from &&
                                  brick.calls == old(brick.calls) + writes[..Min(1, |writes|)])
  {
    written := from;
    var count := 0;
    ghost var full := BurstLog(id, data, from, 0, brick.calls);
    BurstLogged(id, data, from, 0, brick.calls);
    while count < ASYNC_BURST_CHUNKS - 1 && |data| - written > MAX_WRITE_ASYNC_BUFFER_LENGTH
      invariant count <= ASYNC_BURST_CHUNKS - 1
      invariant BurstLog(id, data, written, count, brick.calls) == full
      invariant brick.connected || (count == 0 && written == from && brick.calls == old(brick.calls))
      decreases ASYNC_BURST_CHUNKS - 1 - count
    {
      var (chunk, n) := ZeroPaddedChunk(data, MAX_WRITE_UNCHECKED_BUFFER_LENGTH, written);
      var ok := brick.Send(WriteFileUnchecked(id, chunk, n));
      if !ok {
        return false, written;
      }
      written := written + n;
      count := count + 1;
    }
    sent := true;
  }
}
