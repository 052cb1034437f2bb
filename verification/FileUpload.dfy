/**
 Upload of a file from the File object of a device: a chunked transfer with an 8-bit
 wrapping transfer number, a handler that is called once, and a size check at the end.
 */
module FileUpload {
  import opened Wire

  const SUCCESS: byte := 0x00
  const INVALID_PARAMETER: byte := 0x20
  const INVALID_REPLY_RECEIVED: byte := 0x22

  const FIRST: byte := 0
  const MIDDLE: byte := 1
  const LAST: byte := 2
  const FIRST_AND_LAST: byte := 4

  const MAX_TRANSFER_SIZE: byte := 255

  datatype Request = InitiateUpload(transferSize: byte) | UploadTransfer(number: byte)

  /** What a session gives back: an error, or a reply with its general status. */
  datatype Reply = NoReply | Reply(status: byte, data: bytes)

  /** A call of an upload handler; handlers are told apart by a number. */
  datatype Call = Call(handler: nat, status: byte, data: bytes)

  datatype State =
    | NonExistent
    | Empty
    | Loaded
    | Uploading(fileSize: u32, transferSize: byte, transferNumber: byte, content: bytes, handler: nat)

  // ---------------------------------------------------------------- one transfer

  /** What one reply does to an upload in progress. */
  datatype Effect = Effect(state: State, calls: seq<Call>, result: Result<bool>)

  /** Ends the upload and calls the handler; the size is checked on regular ends. */
  function Finish(s: State, status: byte, checkSize: bool, result: Result<bool>): Effect
    requires s.Uploading?
  {
    Effect(Loaded,
           [if checkSize && |s.content| != s.fileSize then Call(s.handler, INVALID_PARAMETER, [])
            else if status == SUCCESS then Call(s.handler, status, s.content)
            else Call(s.handler, status, [])],
           result)
  }

  /** The chunk of a full packet, if this is one that is accepted. */
  function FullChunk(s: State, reply: Reply): Option<bytes> {
    if s.Uploading? && reply.Reply? && reply.status == SUCCESS && |reply.data| >= 2 + s.transferSize as int
       && reply.data[0] == s.transferNumber && (reply.data[1] == FIRST || reply.data[1] == MIDDLE)
    then Some(reply.data[2..2 + s.transferSize as int]) else None
  }

  /** The last packet without its 16-bit checksum. */
  function LastChunk(data: bytes): bytes
    requires |data| >= 2
  {
    if |data| < 4 then [] else data[2..|data| - 2]
  }

  function Transferred(s: State, reply: Reply): Effect
    requires s.Uploading?
  {
    if reply.NoReply? then Effect(s, [], Err(SessionFailed))
    else if reply.status != SUCCESS then Finish(s, reply.status, false, Ok(false))
    else if |reply.data| < 2 then Effect(s, [], Err(Truncated))
    else if reply.data[0] != s.transferNumber then Finish(s, INVALID_PARAMETER, false, Ok(false))
    else if reply.data[1] == FIRST || reply.data[1] == MIDDLE then
      if FullChunk(s, reply).None? then Effect(s, [], Err(Truncated))
      else
        Effect(s.(content := s.content + FullChunk(s, reply).value,
                  transferNumber := (s.transferNumber + 1) % 0x100), [], Ok(true))
    else if reply.data[1] == LAST || reply.data[1] == FIRST_AND_LAST then
      Finish(s.(content := s.content + LastChunk(reply.data)), SUCCESS, true, Ok(false))
    else Finish(s, INVALID_REPLY_RECEIVED, false, Err(InvalidPacket))
  }

  // ---------------------------------------------------------------- whole calls

  /** The upload state, the handlers called so far, the replies the session still has and
      the requests it was sent. */
  datatype World = World(state: State, calls: seq<Call>, replies: seq<Reply>, requests: seq<Request>)

  /** The next reply; a session with none left fails. */
  function Head(replies: seq<Reply>): Reply {
    if replies == [] then NoReply else replies[0]
  }

  function Tail(replies: seq<Reply>): seq<Reply> {
    if replies == [] then [] else replies[1..]
  }

  function Asked(w: World, request: Request): World {
    w.(replies := Tail(w.replies), requests := w.requests + [request])
  }

  function Begun(w: World, handler: nat): (World, Result<()>) {
    if w.state != Loaded then (w, Ok(()))
    else
      var reply := Head(w.replies);
      var w' := Asked(w, InitiateUpload(MAX_TRANSFER_SIZE));
      if reply.NoReply? then (w', Err(SessionFailed))
      else if reply.status != SUCCESS then (w'.(calls := w.calls + [Call(handler, reply.status, [])]), Ok(()))
      else if |reply.data| < 5 then (w', Err(Truncated))
      else (w'.(state := Uploading(Get32(reply.data), reply.data[4], 0, [], handler)), Ok(()))
  }

  /** One call of handle_transfers. */
  function Stepped(w: World): (World, Result<bool>) {
    if !w.state.Uploading? then (w, Ok(false))
    else
      var e := Transferred(w.state, Head(w.replies));
      (Asked(w, UploadTransfer(w.state.transferNumber)).(state := e.state, calls := w.calls + e.calls), e.result)
  }

  /** The loop of upload: transfers until one returns false or fails. */
  function Drained(w: World): (World, Result<()>)
    decreases |w.replies|
  {
    var (w', result) := Stepped(w);
    if result == Ok(true) then Drained(w')
    else (w', if result.Ok? then Ok(()) else Err(result.error))
  }

  /** What the channel of a handler delivers at the end. */
  function Delivered(calls: seq<Call>, handler: nat): Result<bytes> {
    if calls == [] || calls[|calls| - 1].handler != handler then Err(Unsupported)
    else
      var call := calls[|calls| - 1];
      if call.status == SUCCESS then Ok(call.data) else Err(Cip(call.status))
  }

  /** upload: calls made before it do not count for its channel. */
  function Uploaded(w: World, handler: nat): (World, Result<bytes>)
  {
    var (b, begun) := Begun(w, handler);
    if begun.Err? then (b, Err(begun.error))
    else
      var (d, drained) := Drained(b);
      (d, if drained.Err? then Err(drained.error)
          else if |d.calls| <= |w.calls| then Err(Unsupported)
          else Delivered(d.calls[|w.calls|..], handler))
  }

  // ---------------------------------------------------------------- the objects

  /** A session that answers from a queue, as the program's own test session does. */
  class Session {
    var replies: seq<Reply>
    var requests: seq<Request>

    constructor (replies: seq<Reply>)
      ensures this.replies == replies && requests == []
    {
      this.replies := replies;
      requests := [];
    }

    method Exchange(request: Request) returns (reply: Reply)
      modifies this
      ensures reply == Head(old(replies)) && replies == Tail(old(replies))
      ensures requests == old(requests) + [request]
    {
      requests := requests + [request];
      if replies == [] {
        return NoReply;
      }
      reply := replies[0];
      replies := replies[1..];
    }
  }

  class FileObject {
    var state: State
    var calls: seq<Call>

    constructor (state: State)
      ensures this.state == state && calls == []
    {
      this.state := state;
      calls := [];
    }

    /** The object is loaded again, and the handler of the upload learns how it went. */
    method FinishUpload(status: byte, checkSize: bool)
      requires state.Uploading?
      modifies this
      ensures state == Loaded
      ensures calls == old(calls) + Finish(old(state), status, checkSize, Ok(false)).calls
    {
      var s := state;
      state := Loaded;
      if checkSize && |s.content| != s.fileSize {
        calls := calls + [Call(s.handler, INVALID_PARAMETER, [])];
      } else if status == SUCCESS {
        calls := calls + [Call(s.handler, status, s.content)];
      } else {
        calls := calls + [Call(s.handler, status, [])];
      }
    }

    function In(session: Session): World
      reads this, session
    {
      World(state, calls, session.replies, session.requests)
    }

    method BeginUpload(session: Session, handler: nat) returns (r: Result<()>)
      modifies this, session
      ensures (In(session), r) == Begun(old(In(session)), handler)
    {
      if state != Loaded {
        return Ok(());
      }
      var reply := session.Exchange(InitiateUpload(MAX_TRANSFER_SIZE));
      if reply.NoReply? {
        return Err(SessionFailed);
      }
      if reply.status != SUCCESS {
        calls := calls + [Call(handler, reply.status, [])];
        return Ok(());
      }
      var buf := reply.data;
      if |buf| < 4 {
        return Err(Truncated);
      }
      var fileSize := Get32(buf);
      buf := buf[4..];
      if |buf| < 1 {
        return Err(Truncated);
      }
      state := Uploading(fileSize, buf[0], 0, [], handler);
      return Ok(());
    }

    /** Requests the next packet; true while more packets remain. */
    method HandleTransfers(session: Session) returns (r: Result<bool>)
      modifies this, session
      ensures (In(session), r) == Stepped(old(In(session)))
    {
      if !state.Uploading? {
        return Ok(false);
      }
      assert calls + [] == calls;
      var reply := session.Exchange(UploadTransfer(state.transferNumber));
      if reply.NoReply? {
        return Err(SessionFailed);
      }
      if reply.status != SUCCESS {
        FinishUpload(reply.status, false);
        return Ok(false);
      }
      var buf := reply.data;
      if |buf| < 2 {
        return Err(Truncated);
      }
      var received, packetType := buf[0], buf[1];
      buf := buf[2..];
      if received != state.transferNumber {
        FinishUpload(INVALID_PARAMETER, false);
        return Ok(false);
      }
      if packetType == FIRST || packetType == MIDDLE {
        var n: int := state.transferSize;
        if |buf| < n {
          return Err(Truncated);
        }
        assert buf[..n] == reply.data[2..2 + n];
        state := state.(content := state.content + buf[..n], transferNumber := (state.transferNumber + 1) % 0x100);
        return Ok(true);
      } else if packetType == LAST || packetType == FIRST_AND_LAST {
        var len := if |buf| < 2 then 0 else |buf| - 2;
        assert buf[..len] == LastChunk(reply.data);
        state := state.(content := state.content + buf[..len]);
        FinishUpload(SUCCESS, true);
        return Ok(false);
      } else {
        FinishUpload(INVALID_REPLY_RECEIVED, false);
        return Err(InvalidPacket);
      }
    }

    /** Requests packets until none remain. */
    method TransferAll(session: Session) returns (r: Result<()>)
      modifies this, session
      ensures (In(session), r) == Drained(old(In(session)))
    {
      ghost var all := Drained(In(session));
      while true
        invariant Drained(In(session)) == all
        decreases |session.replies|
      {
        var more := HandleTransfers(session);
        if more.Err? {
          return Err(more.error);
        }
        if !more.value {
          return Ok(());
        }
      }
    }

    /** Uploads the whole file. */
    method Upload(session: Session, handler: nat) returns (r: Result<bytes>)
      modifies this, session
      ensures (In(session), r) == Uploaded(old(In(session)), handler)
    {
      ghost var w := In(session);
      var before := |calls|;
      var begun := BeginUpload(session, handler);
      if begun.Err? {
        return Err(begun.error);
      }
      ghost var b := In(session);
      var drained := TransferAll(session);
      UploadedAfter(w, handler, b, In(session), drained);
      if drained.Err? {
        return Err(drained.error);
      }
      if |calls| <= before || calls[|calls| - 1].handler != handler {
        return Err(Unsupported);
      }
      var last := calls[|calls| - 1];
      if last.status == SUCCESS {
        return Ok(last.data);
      }
      return Err(Cip(last.status));
    }
  }

  /** What upload returns once its transfers are over: what its handler was told last. */
  lemma UploadedAfter(w: World, handler: nat, b: World, d: World, drained: Result<()>)
    requires Begun(w, handler) == (b, Ok(())) && Drained(b) == (d, drained)
    ensures Uploaded(w, handler).0 == d
    ensures Uploaded(w, handler).1 ==
              if drained.Err? then Err(drained.error)
              else if |d.calls| <= |w.calls| || d.calls[|d.calls| - 1].handler != handler then Err(Unsupported)
              else
                var last := d.calls[|d.calls| - 1];
                if last.status == SUCCESS then Ok(last.data) else Err(Cip(last.status))
  {
  }

  // ---------------------------------------------------------------- any stream of replies

  /** A failed exchange or a short packet leaves the upload as it was; the handler is
      called exactly when the upload is left. */
  lemma TransferLeavesOrFires(s: State, reply: Reply)
    requires s.Uploading?
    ensures var e := Transferred(s, reply);
            && (e.state.Uploading? <==> e.calls == [])
            && (e.state.Uploading? && e.result.Err? ==> e.state == s)
            && (!e.state.Uploading? ==> e.state == Loaded && |e.calls| == 1 && e.calls[0].handler == s.handler)
            && (reply.NoReply? ==> e.state == s && e.result.Err?)
  {
  }

  /** Calls of handle_transfers for all the replies, retrying after errors. */
  function Fed(s: State, replies: seq<Reply>): (State, seq<Call>)
    decreases |replies|
  {
    if replies == [] || !s.Uploading? then (s, [])
    else
      var e := Transferred(s, replies[0]);
      if e.state.Uploading? then Fed(e.state, replies[1..]) else (e.state, e.calls)
  }

  /** The full chunks that were accepted on the way. */
  function Chunks(s: State, replies: seq<Reply>): seq<bytes>
    decreases |replies|
  {
    if replies == [] || !s.Uploading? then []
    else
      var rest := Chunks(Transferred(s, replies[0]).state, replies[1..]);
      if FullChunk(s, replies[0]).Some? then [FullChunk(s, replies[0]).value] + rest else rest
  }

  function Flatten(chunks: seq<bytes>): bytes {
    if chunks == [] then [] else chunks[0] + Flatten(chunks[1..])
  }

  /** e is the upload s after the given chunks. */
  predicate Advanced(s: State, chunks: seq<bytes>, e: State)
    requires s.Uploading?
  {
    e == s.(transferNumber := (s.transferNumber + |chunks|) % 0x100, content := s.content + Flatten(chunks))
  }

  /** The reply at which the upload is left. */
  function Ending(s: State, replies: seq<Reply>): Option<Reply>
    decreases |replies|
  {
    if replies == [] || !s.Uploading? then None
    else
      var e := Transferred(s, replies[0]);
      if e.state.Uploading? then Ending(e.state, replies[1..]) else Some(replies[0])
  }

  /** The content with a last packet for the given number of accepted packets; anything but
      a good last packet of the right number adds up to nothing. */
  function Whole(s: State, chunks: seq<bytes>, last: Reply): Option<bytes>
    requires s.Uploading?
  {
    if last.Reply? && last.status == SUCCESS && |last.data| >= 2
       && last.data[0] == (s.transferNumber + |chunks|) % 0x100
       && (last.data[1] == LAST || last.data[1] == FIRST_AND_LAST)
    then Some(s.content + Flatten(chunks) + LastChunk(last.data))
    else None
  }

  /** The one call of the handler of s: a success exactly when the upload ended with a last
      packet of the right number and the content has the announced size, and then it gets
      that content; otherwise it gets nothing. */
  predicate Concluded(s: State, chunks: seq<bytes>, last: Reply, call: Call)
    requires s.Uploading?
  {
    var whole := Whole(s, chunks, last);
    && call.handler == s.handler
    && (call.status == SUCCESS <==> whole.Some? && |whole.value| == s.fileSize)
    && call.data == if call.status == SUCCESS then whole.value else []
  }

  lemma TransferConcludes(s: State, reply: Reply)
    requires s.Uploading? && !Transferred(s, reply).state.Uploading?
    ensures FullChunk(s, reply).None? && Concluded(s, [], reply, Transferred(s, reply).calls[0])
  {
    assert s.content + [] == s.content;
  }

  lemma TransferAdvances(s: State, reply: Reply)
    requires s.Uploading? && Transferred(s, reply).state.Uploading?
    ensures Advanced(s, if FullChunk(s, reply).Some? then [FullChunk(s, reply).value] else [], Transferred(s, reply).state)
  {
    assert s.content + [] == s.content;
    if FullChunk(s, reply).Some? {
      assert Flatten([FullChunk(s, reply).value]) == FullChunk(s, reply).value + [];
    }
  }

  lemma FlattenCons(first: seq<bytes>, chunks: seq<bytes>)
    requires |first| <= 1
    ensures Flatten(first + chunks) == Flatten(first) + Flatten(chunks)
  {
    if first == [] {
      assert first + chunks == chunks;
    } else {
      assert (first + chunks)[1..] == chunks && first[1..] == [];
    }
  }

  lemma ConcatAssoc(a: bytes, b: bytes, c: bytes)
    ensures a + b + c == a + (b + c)
  {
  }

  lemma ModTwice(x: nat, a: nat, b: nat)
    ensures ((x + a) % 0x100 + b) % 0x100 == (x + (a + b)) % 0x100
  {
  }

  lemma AdvancedTwice(s: State, first: seq<bytes>, m: State, chunks: seq<bytes>, e: State)
    requires s.Uploading? && |first| <= 1 && Advanced(s, first, m) && Advanced(m, chunks, e)
    ensures Advanced(s, first + chunks, e)
  {
    FlattenCons(first, chunks);
    ConcatAssoc(s.content, Flatten(first), Flatten(chunks));
    ModTwice(s.transferNumber, |first|, |chunks|);
  }

  lemma ConcludedLater(s: State, first: seq<bytes>, m: State, chunks: seq<bytes>, last: Reply, call: Call)
    requires s.Uploading? && |first| <= 1 && Advanced(s, first, m) && Concluded(m, chunks, last, call)
    ensures Concluded(s, first + chunks, last, call)
  {
    FlattenCons(first, chunks);
    ConcatAssoc(s.content, Flatten(first), Flatten(chunks));
    ModTwice(s.transferNumber, |first|, |chunks|);
    assert m.content + Flatten(chunks) == s.content + Flatten(first + chunks);
  }

  /** For any replies, with retries after errors: while the upload lasts, the transfer
      number counts the accepted packets modulo 256 and the content is their chunks in
      order, each of the transfer size, and the handler was not called; once it is left,
      the handler was called exactly once, with success exactly if the reply that ended the
      upload is a last packet with the number that was due and the content has the announced
      size, and then with those chunks and the last one. */
  lemma {:induction false} UploadTracksAcceptedChunks(s: State, replies: seq<Reply>)
    requires s.Uploading?
    ensures var (e, calls) := Fed(s, replies);
            var chunks := Chunks(s, replies);
            && (forall i | 0 <= i < |chunks| :: |chunks[i]| == s.transferSize as int)
            && (e.Uploading? ==> calls == [] && Advanced(s, chunks, e))
            && (!e.Uploading? ==> e == Loaded && |calls| == 1 && Ending(s, replies).Some?)
            && (!e.Uploading? ==> Concluded(s, chunks, Ending(s, replies).value, calls[0]))
    decreases |replies|
  {
    if replies == [] {
      assert s.content + [] == s.content;
    } else {
      var m := Transferred(s, replies[0]);
      TransferLeavesOrFires(s, replies[0]);
      if m.state.Uploading? {
        var first := if FullChunk(s, replies[0]).Some? then [FullChunk(s, replies[0]).value] else [];
        var (e, calls) := Fed(m.state, replies[1..]);
        var chunks := Chunks(m.state, replies[1..]);
        TransferAdvances(s, replies[0]);
        UploadTracksAcceptedChunks(m.state, replies[1..]);
        assert Chunks(s, replies) == first + chunks;
        if e.Uploading? {
          AdvancedTwice(s, first, m.state, chunks, e);
        } else {
          ConcludedLater(s, first, m.state, chunks, Ending(s, replies).value, calls[0]);
        }
      } else {
        TransferConcludes(s, replies[0]);
        assert Chunks(s, replies) == [];
      }
    }
  }

  /** A failed exchange, or a packet too short for its kind: a retry would ask again. */
  predicate IsStray(s: State, reply: Reply) {
    s.Uploading? && Transferred(s, reply).result.Err? && Transferred(s, reply).state.Uploading?
  }

  /** The replies without the stray ones. */
  function Heeded(s: State, replies: seq<Reply>): seq<Reply>
    decreases |replies|
  {
    if replies == [] || !s.Uploading? then replies
    else if IsStray(s, replies[0]) then Heeded(s, replies[1..])
    else [replies[0]] + Heeded(Transferred(s, replies[0]).state, replies[1..])
  }

  /** Exactly the session errors and the packets too short to be read are stray; over any
      stream of replies they change neither the upload nor what its handler is told. */
  lemma {:induction false} StrayRepliesChangeNothing(s: State, replies: seq<Reply>)
    requires s.Uploading?
    ensures Fed(s, replies) == Fed(s, Heeded(s, replies))
    ensures forall reply :: IsStray(s, reply) <==>
              || reply.NoReply?
              || (reply.status == SUCCESS && |reply.data| < 2)
              || (reply.status == SUCCESS && reply.data[0] == s.transferNumber
                  && (reply.data[1] == FIRST || reply.data[1] == MIDDLE) && |reply.data| < 2 + s.transferSize as int)
    decreases |replies|
  {
    if replies != [] {
      var m := Transferred(s, replies[0]);
      TransferLeavesOrFires(s, replies[0]);
      if m.state.Uploading? {
        StrayRepliesChangeNothing(m.state, replies[1..]);
        if !IsStray(s, replies[0]) {
          var heeded := [replies[0]] + Heeded(m.state, replies[1..]);
          assert heeded[1..] == Heeded(m.state, replies[1..]);
        }
      }
    }
  }

  // ---------------------------------------------------------------- what is reported

  /** The content of a last packet, without its two checksum bytes. */
  function Remainder(data: bytes): bytes {
    if |data| <= 4 then [] else data[2..|data| - 2]
  }

  /** The status reported for an upload that ended with this reply after n accepted packets:
      the device's own if it failed; 0x20 (invalid parameter) for a packet with another number
      than n and for a file of another size than announced; 0x22 (invalid reply) for a packet
      that is not of type 0, 1, 2 or 4; otherwise 0, success. */
  function Reported(s: State, chunks: seq<bytes>, last: Reply): nat
    requires s.Uploading? && last.Reply?
  {
    if last.status != 0 then last.status
    else if |last.data| < 2 || last.data[0] as int != (s.transferNumber as int + |chunks|) % 256 then 0x20
    else if last.data[1] != 2 && last.data[1] != 4 then 0x22
    else if |s.content| + |Flatten(chunks)| + |Remainder(last.data)| != s.fileSize as int then 0x20
    else 0
  }

  lemma EndIsReported(s: State, reply: Reply)
    requires s.Uploading? && !Transferred(s, reply).state.Uploading?
    ensures reply.Reply? && Transferred(s, reply).calls[0].status == Reported(s, [], reply)
    ensures Transferred(s, reply).calls[0].data ==
              if Reported(s, [], reply) == 0 then s.content + Remainder(reply.data) else []
    ensures Transferred(s, reply).result ==
              if Reported(s, [], reply) == 0x22 && reply.status == 0 then Err(InvalidPacket) else Ok(false)
  {
  }

  lemma ReportedLater(s: State, first: seq<bytes>, m: State, chunks: seq<bytes>, last: Reply)
    requires s.Uploading? && |first| <= 1 && Advanced(s, first, m) && last.Reply?
    ensures Reported(s, first + chunks, last) == Reported(m, chunks, last)
  {
    FlattenCons(first, chunks);
    ModTwice(s.transferNumber, |first|, |chunks|);
  }

  /** For any stream of replies, what the handler is told when the upload is left. */
  lemma {:induction false} HandlerIsToldTheStatus(s: State, replies: seq<Reply>)
    requires s.Uploading? && !Fed(s, replies).0.Uploading?
    ensures var calls, chunks := Fed(s, replies).1, Chunks(s, replies);
      && Ending(s, replies).Some? && Ending(s, replies).value.Reply? && |calls| == 1
      && calls[0].status as int == Reported(s, chunks, Ending(s, replies).value)
    decreases |replies|
  {
    var m := Transferred(s, replies[0]);
    TransferLeavesOrFires(s, replies[0]);
    if m.state.Uploading? {
      var first := if FullChunk(s, replies[0]).Some? then [FullChunk(s, replies[0]).value] else [];
      TransferAdvances(s, replies[0]);
      HandlerIsToldTheStatus(m.state, replies[1..]);
      assert Chunks(s, replies) == first + Chunks(m.state, replies[1..]);
      ReportedLater(s, first, m.state, Chunks(m.state, replies[1..]), Ending(s, replies).value);
    } else {
      TransferConcludes(s, replies[0]);
      EndIsReported(s, replies[0]);
      assert Chunks(s, replies) == [];
    }
  }

  /** The first n replies are packets that are accepted. */
  predicate AreAccepted(s: State, replies: seq<Reply>, n: nat)
    requires n <= |replies|
    decreases n
  {
    n == 0 || (FullChunk(s, replies[0]).Some? && AreAccepted(Transferred(s, replies[0]).state, replies[1..], n - 1))
  }

  /** The upload after n accepted packets. */
  function AfterPackets(s: State, replies: seq<Reply>, n: nat): State
    requires n <= |replies| && AreAccepted(s, replies, n)
    decreases n
  {
    if n == 0 then s else AfterPackets(Transferred(s, replies[0]).state, replies[1..], n - 1)
  }

  lemma {:induction false} AcceptedAdvance(s: State, replies: seq<Reply>, n: nat)
    requires s.Uploading? && n <= |replies| && AreAccepted(s, replies, n)
    ensures AfterPackets(s, replies, n).Uploading?
    ensures |Chunks(s, replies[..n])| == n && Advanced(s, Chunks(s, replies[..n]), AfterPackets(s, replies, n))
    decreases n
  {
    if n == 0 {
      assert s.content + [] == s.content;
    } else {
      var first := [FullChunk(s, replies[0]).value];
      var m := Transferred(s, replies[0]).state;
      TransferAdvances(s, replies[0]);
      AcceptedAdvance(m, replies[1..], n - 1);
      assert replies[..n][1..] == replies[1..][..n - 1];
      assert Chunks(s, replies[..n]) == first + Chunks(m, replies[1..][..n - 1]);
      AdvancedTwice(s, first, m, Chunks(m, replies[1..][..n - 1]), AfterPackets(s, replies, n));
    }
  }

  /** The loop of upload stops at the first reply that is not an accepted packet. */
  lemma {:induction false} DrainedStops(w: World, n: nat)
    requires w.state.Uploading? && n < |w.replies| && AreAccepted(w.state, w.replies, n)
    requires AfterPackets(w.state, w.replies, n).Uploading?
    requires Transferred(AfterPackets(w.state, w.replies, n), w.replies[n]).result != Ok(true)
    ensures var e := Transferred(AfterPackets(w.state, w.replies, n), w.replies[n]);
            var d := Drained(w);
      && d.0.state == e.state && d.0.calls == w.calls + e.calls && d.0.replies == w.replies[n + 1..]
      && d.1 == if e.result.Ok? then Ok(()) else Err(e.result.error)
    decreases n
  {
    if n > 0 {
      var m := Stepped(w).0;
      assert w.calls + [] == w.calls;
      assert m.replies == w.replies[1..] && m.replies[n..] == w.replies[n + 1..];
      DrainedStops(m, n - 1);
    }
  }

  /** A device that refuses the upload: its status goes to the handler and to the caller. A
      session error or a short answer goes to the caller, and the object stays as it was. */
  lemma RefusedUploadIsReported(w: World, handler: nat)
    requires w.state == Loaded
    ensures w.replies == [] || w.replies[0].NoReply? ==>
              Uploaded(w, handler).1 == Err(SessionFailed) && Uploaded(w, handler).0.state == Loaded
    ensures w.replies != [] && w.replies[0].Reply? && w.replies[0].status != 0 ==>
              && Uploaded(w, handler).1 == Err(Cip(w.replies[0].status)) && Uploaded(w, handler).0.state == Loaded
              && Uploaded(w, handler).0.calls == w.calls + [Call(handler, w.replies[0].status, [])]
    ensures w.replies != [] && w.replies[0].Reply? && w.replies[0].status == 0 && |w.replies[0].data| < 5 ==>
              && Uploaded(w, handler).1 == Err(Truncated) && Uploaded(w, handler).0.state == Loaded
              && Uploaded(w, handler).0.calls == w.calls
  {
    if w.replies != [] && w.replies[0].Reply? && w.replies[0].status != 0 {
      var calls := w.calls + [Call(handler, w.replies[0].status, [])];
      assert calls[|w.calls|..] == [Call(handler, w.replies[0].status, [])];
    }
  }

  /** The upload as the device announced it: file size in four bytes, transfer size in one. */
  function AnnouncedUpload(data: bytes, handler: nat): State
    requires |data| >= 5
  {
    Uploading(data[0] as int + 0x100 * data[1] as int + 0x1_0000 * data[2] as int + 0x100_0000 * data[3] as int,
              data[4], 0, [], handler)
  }

  lemma BegunAsAnnounced(w: World, handler: nat)
    requires w.state == Loaded && w.replies != [] && w.replies[0].Reply? && w.replies[0].status == 0
    requires |w.replies[0].data| >= 5
    ensures Begun(w, handler) ==
              (World(AnnouncedUpload(w.replies[0].data, handler), w.calls, w.replies[1..],
                     w.requests + [InitiateUpload(255)]),
               Ok(()))
  {
  }

  /** For any replies: what upload returns when, after n accepted packets, a reply comes that is
      not one. If it ends the upload, the caller gets the file or an error with the status the
      handler is told, except that a packet of unknown type is an invalid packet; if it does
      not, the caller gets the session error or the truncation, and the upload stays open. */
  lemma UploadReportsTheStatus(w: World, handler: nat, n: nat)
    requires w.state == Loaded && w.replies != [] && w.replies[0].Reply? && w.replies[0].status == 0
    requires |w.replies[0].data| >= 5 && n + 1 < |w.replies|
    requires AreAccepted(AnnouncedUpload(w.replies[0].data, handler), w.replies[1..], n)
    requires FullChunk(AfterPackets(AnnouncedUpload(w.replies[0].data, handler), w.replies[1..], n),
                       w.replies[n + 1]).None?
    ensures var s := AnnouncedUpload(w.replies[0].data, handler);
            var m, last := AfterPackets(s, w.replies[1..], n), w.replies[n + 1];
            var chunks := Chunks(s, w.replies[1..][..n]);
            var u := Uploaded(w, handler);
      && m.Uploading?
      && (IsStray(m, last) ==>
            && u.1 == Err(if last.NoReply? then SessionFailed else Truncated) && u.0.state == m && u.0.calls == w.calls)
      && (!IsStray(m, last) ==>
            && last.Reply? && u.0.state == Loaded && |u.0.calls| == |w.calls| + 1
            && u.0.calls[|w.calls|].handler == handler
            && u.0.calls[|w.calls|].status as int == Reported(s, chunks, last)
            && u.1 == (if last.status == 0 && Reported(s, chunks, last) == 0x22 then Err(InvalidPacket)
                       else if Reported(s, chunks, last) == 0 then Ok(Flatten(chunks) + Remainder(last.data))
                       else Err(Cip(Reported(s, chunks, last)))))
  {
    var s, replies := AnnouncedUpload(w.replies[0].data, handler), w.replies[1..];
    var b := Begun(w, handler).0;
    var m, last := AfterPackets(s, replies, n), w.replies[n + 1];
    BegunAsAnnounced(w, handler);
    AcceptedAdvance(s, replies, n);
    StopsHere(m, last);
    DrainedStops(b, n);
    assert replies[n] == last;
    if !IsStray(m, last) {
      EndOfUpload(w, b, handler, s, Chunks(s, replies[..n]), m, last);
    } else {
      assert w.calls + [] == w.calls;
    }
  }

  lemma StopsHere(m: State, last: Reply)
    requires m.Uploading? && FullChunk(m, last).None?
    ensures Transferred(m, last).result != Ok(true)
    ensures IsStray(m, last) ==>
              Transferred(m, last) == Effect(m, [], Err(if last.NoReply? then SessionFailed else Truncated))
    ensures !IsStray(m, last) ==> !Transferred(m, last).state.Uploading?
  {
  }

  lemma EndOfUpload(w: World, b: World, handler: nat, s: State, chunks: seq<bytes>, m: State, last: Reply)
    requires Begun(w, handler) == (b, Ok(())) && s.Uploading? && s.content == [] && s.handler == handler
    requires Advanced(s, chunks, m) && !Transferred(m, last).state.Uploading? && b.calls == w.calls
    requires var e := Transferred(m, last); var d := Drained(b);
             && d.0.state == e.state && d.0.calls == b.calls + e.calls
             && d.1 == if e.result.Ok? then Ok(()) else Err(e.result.error)
    ensures var u := Uploaded(w, handler);
      && last.Reply? && u.0.state == Loaded && |u.0.calls| == |w.calls| + 1
      && u.0.calls[|w.calls|].handler == handler && u.0.calls[|w.calls|].status as int == Reported(s, chunks, last)
      && u.1 == (if last.status == 0 && Reported(s, chunks, last) == 0x22 then Err(InvalidPacket)
                 else if Reported(s, chunks, last) == 0 then Ok(Flatten(chunks) + Remainder(last.data))
                 else Err(Cip(Reported(s, chunks, last))))
  {
    var e := Transferred(m, last);
    TransferLeavesOrFires(m, last);
    EndIsReported(m, last);
    assert Flatten([]) == [] && m.content == Flatten(chunks);
    assert Reported(m, [], last) == Reported(s, chunks, last);
    assert (w.calls + e.calls)[|w.calls|..] == e.calls;
  }

  // ---------------------------------------------------------------- an honest device

  /** A file served in `full` packets of the transfer size and one last packet with the
      rest and a checksum. Transfer numbers are packet counts modulo 256; packet types are 0
      for the first, 1 for a middle and 2 for the last packet, 4 for a single one. */
  datatype Device = Device(file: bytes, transferSize: byte, full: nat, checksum: bytes) {
    predicate Honest() {
      |file| < 0x1_0000_0000 && |checksum| == 2 && Offset(full, transferSize) <= |file|
    }

    /** The answer to the request for packet number i. */
    function Packet(i: nat): Reply
      requires Honest() && i <= full
    {
      OffsetMonotone(i, full, transferSize);
      if i < full then
        Reply(0, [i % 0x100, if i == 0 then 0 else 1] + Slice(i))
      else
        Reply(0, [full % 0x100, if full == 0 then 4 else 2] + file[Offset(full, transferSize)..] + checksum)
    }

    function Slice(i: nat): bytes
      requires Honest() && i < full
    {
      OffsetMonotone(i + 1, full, transferSize);
      file[Offset(i, transferSize)..Offset(i + 1, transferSize)]
    }

    /** The answers to the requests for packets i and later. */
    function Packets(i: nat): seq<Reply>
      requires Honest() && i <= full
      decreases full - i
    {
      [Packet(i)] + (if i == full then [] else Packets(i + 1))
    }

    /** The requests an uploader must send for packets i and later. */
    function Numbers(i: nat): seq<Request>
      requires i <= full
      decreases full - i
    {
      [UploadTransfer(i % 0x100)] + (if i == full then [] else Numbers(i + 1))
    }

    function Announcement(): Reply
      requires Honest()
    {
      Reply(0, Put32(|file|) + [transferSize])
    }
  }

  /** Where packet i starts: i times the transfer size. */
  function Offset(i: nat, size: nat): nat {
    if i == 0 then 0 else Offset(i - 1, size) + size
  }

  lemma {:induction false} OffsetIsProduct(i: nat, size: nat)
    ensures Offset(i, size) == i * size
  {
    if i > 0 {
      OffsetIsProduct(i - 1, size);
      assert i * size == (i - 1) * size + size;
    }
  }

  /** Every file shorter than 2^32 bytes can be served honestly with every transfer size. */
  lemma EveryFileCanBeServed(file: bytes, transferSize: byte, checksum: bytes)
    requires |file| < 0x1_0000_0000 && transferSize > 0 && |checksum| == 2
    ensures Device(file, transferSize, |file| / transferSize as int, checksum).Honest()
  {
    OffsetIsProduct(|file| / transferSize as int, transferSize);
  }

  lemma {:induction false} OffsetMonotone(i: nat, j: nat, size: nat)
    requires i <= j
    ensures Offset(i, size) <= Offset(j, size)
    decreases j - i
  {
    if i < j {
      OffsetMonotone(i, j - 1, size);
    }
  }

  /** The upload after the first i packets. */
  function Halfway(d: Device, i: nat, handler: nat): State
    requires d.Honest() && i <= d.full
  {
    OffsetMonotone(i, d.full, d.transferSize);
    Uploading(|d.file|, d.transferSize, i % 0x100, d.file[..Offset(i, d.transferSize)], handler)
  }

  lemma FullTransfer(s: State, kind: byte, chunk: bytes)
    requires s.Uploading? && |chunk| == s.transferSize as int && (kind == FIRST || kind == MIDDLE)
    ensures Transferred(s, Reply(SUCCESS, [s.transferNumber, kind] + chunk))
            == Effect(s.(content := s.content + chunk, transferNumber := (s.transferNumber + 1) % 0x100), [], Ok(true))
  {
    var data := [s.transferNumber, kind] + chunk;
    assert data[2..2 + |chunk|] == chunk;
  }

  lemma HalfwayOneOn(d: Device, i: nat, handler: nat)
    requires d.Honest() && i < d.full
    ensures var s := Halfway(d, i, handler);
            Halfway(d, i + 1, handler) == s.(content := s.content + d.Slice(i), transferNumber := (s.transferNumber + 1) % 0x100)
  {
    var n, m := Offset(i, d.transferSize), Offset(i + 1, d.transferSize);
    OffsetMonotone(i + 1, d.full, d.transferSize);
    assert d.file[..n] + d.file[n..m] == d.file[..m];
  }

  lemma FullPacketAdvances(d: Device, i: nat, handler: nat)
    requires d.Honest() && i < d.full
    ensures Transferred(Halfway(d, i, handler), d.Packet(i)) == Effect(Halfway(d, i + 1, handler), [], Ok(true))
  {
    OffsetMonotone(i + 1, d.full, d.transferSize);
    FullTransfer(Halfway(d, i, handler), if i == 0 then FIRST else MIDDLE, d.Slice(i));
    HalfwayOneOn(d, i, handler);
  }

  lemma LastPacketConcludes(d: Device, handler: nat)
    requires d.Honest()
    ensures Transferred(Halfway(d, d.full, handler), d.Packet(d.full))
            == Effect(Loaded, [Call(handler, SUCCESS, d.file)], Ok(false))
  {
    var n := Offset(d.full, d.transferSize);
    var data := d.Packet(d.full).data;
    assert data[2..] == d.file[n..] + d.checksum;
    assert LastChunk(data) == d.file[n..];
    assert d.file[..n] + d.file[n..] == d.file;
  }

  lemma HonestStep(d: Device, i: nat, w: World, handler: nat, rest: seq<Reply>)
    requires d.Honest() && i <= d.full
    requires w.state == Halfway(d, i, handler) && w.replies == [d.Packet(i)] + rest
    ensures var sent := w.requests + [UploadTransfer(i % 0x100)];
            Stepped(w) ==
            if i < d.full then (World(Halfway(d, i + 1, handler), w.calls, rest, sent), Ok(true))
            else (World(Loaded, w.calls + [Call(handler, SUCCESS, d.file)], rest, sent), Ok(false))
  {
    assert Tail(w.replies) == rest;
    assert w.calls + [] == w.calls;
    if i < d.full {
      FullPacketAdvances(d, i, handler);
    } else {
      LastPacketConcludes(d, handler);
    }
  }

  lemma DrainedAfterStep(w: World, m: World)
    requires Stepped(w) == (m, Ok(true))
    ensures Drained(w) == Drained(m)
  {
  }

  lemma DrainedAtEnd(w: World, m: World)
    requires Stepped(w) == (m, Ok(false))
    ensures Drained(w) == (m, Ok(()))
  {
  }

  /** What is left after the packets from i on: the loaded state, the handler called with
      the file, later replies untouched, and packet after packet asked for. */
  predicate HonestEnd(d: Device, i: nat, calls: seq<Call>, requests: seq<Request>, handler: nat, more: seq<Reply>,
                      end: (World, Result<()>))
    requires i <= d.full
  {
    end == (World(Loaded, calls + [Call(handler, SUCCESS, d.file)], more, requests + d.Numbers(i)), Ok(()))
  }

  lemma EndsOneEarlier(d: Device, i: nat, calls: seq<Call>, requests: seq<Request>, handler: nat, more: seq<Reply>,
                       end: (World, Result<()>))
    requires i < d.full
    requires HonestEnd(d, i + 1, calls, requests + [UploadTransfer(i % 0x100)], handler, more, end)
    ensures HonestEnd(d, i, calls, requests, handler, more, end)
  {
    assert requests + [UploadTransfer(i % 0x100)] + d.Numbers(i + 1) == requests + ([UploadTransfer(i % 0x100)] + d.Numbers(i + 1));
  }

  lemma {:induction false} HonestPacketsDrain(d: Device, i: nat, w: World, handler: nat, more: seq<Reply>)
    requires d.Honest() && i <= d.full
    requires w.state == Halfway(d, i, handler) && w.replies == d.Packets(i) + more
    ensures HonestEnd(d, i, w.calls, w.requests, handler, more, Drained(w))
    decreases d.full - i
  {
    var rest := if i == d.full then [] else d.Packets(i + 1);
    assert w.replies == [d.Packet(i)] + (rest + more);
    HonestStep(d, i, w, handler, rest + more);
    var m := Stepped(w).0;
    if i == d.full {
      assert [] + more == more;
      DrainedAtEnd(w, m);
      assert d.Numbers(i) == [UploadTransfer(i % 0x100)];
    } else {
      DrainedAfterStep(w, m);
      HonestPacketsDrain(d, i + 1, m, handler, more);
      EndsOneEarlier(d, i, w.calls, w.requests, handler, more, Drained(m));
    }
  }

  /** Against an honest device, for every file shorter than 2^32 bytes, every transfer
      size and every number of full packets (so also past the wrap of the transfer number),
      upload returns exactly the file, having asked for packet i with number i mod 256. */
  lemma HonestUploadReturnsTheFile(d: Device, w: World, handler: nat, more: seq<Reply>)
    requires d.Honest() && w.state == Loaded
    requires w.replies == [d.Announcement()] + d.Packets(0) + more
    ensures Uploaded(w, handler) ==
            (World(Loaded, w.calls + [Call(handler, SUCCESS, d.file)], more,
                   w.requests + [InitiateUpload(255)] + d.Numbers(0)),
             Ok(d.file))
  {
    assert w.replies == [d.Announcement()] + (d.Packets(0) + more);
    assert Tail(w.replies) == d.Packets(0) + more;
    GetPut32(|d.file|, [d.transferSize]);
    var b := Begun(w, handler).0;
    assert d.file[..0] == [];
    assert b.state == Halfway(d, 0, handler);
    HonestPacketsDrain(d, 0, b, handler, more);
    var e := Drained(b).0;
    assert e.calls[|w.calls|..] == [Call(handler, SUCCESS, d.file)];
  }

  // ---------------------------------------------------------------- what success means

  /** Transfers call at most one handler, that of the upload in progress. */
  lemma {:induction false} DrainedCalls(w: World)
    ensures var d := Drained(w).0;
            d.calls == w.calls ||
            (w.state.Uploading? && |d.calls| == |w.calls| + 1 && d.calls[..|w.calls|] == w.calls &&
             var call := d.calls[|w.calls|];
             && call.handler == w.state.handler
             && (call.status == SUCCESS ==> |call.data| == w.state.fileSize))
    decreases |w.replies|
  {
    var (m, result) := Stepped(w);
    if w.state.Uploading? {
      TransferLeavesOrFires(w.state, Head(w.replies));
      if result == Ok(true) {
        assert m.calls == w.calls;
        DrainedCalls(m);
      }
    }
  }

  /** upload returns a file only if it started it itself, and only with the size the
      device announced. */
  lemma UploadReturnsAnnouncedSize(w: World, handler: nat)
    requires w.state.Uploading? ==> w.state.handler != handler
    requires Uploaded(w, handler).1.Ok?
    ensures w.state == Loaded
    ensures w.replies != [] && w.replies[0].Reply? && |w.replies[0].data| >= 5
    ensures |Uploaded(w, handler).1.value| == Get32(w.replies[0].data)
  {
    var (b, begun) := Begun(w, handler);
    DrainedCalls(b);
    var d := Drained(b).0;
    assert d.calls[|w.calls|..] != [];
  }

  /** An upload that stopped on an error is not picked up by calling upload again: that
      call finishes the transfer for the handler of the first one and then fails, even
      when the device serves the rest of the file correctly. */
  lemma ResumedUploadIsLost(d: Device, i: nat, w: World, first: nat, handler: nat, more: seq<Reply>)
    requires d.Honest() && i <= d.full && first != handler
    requires w.state == Halfway(d, i, first) && w.replies == d.Packets(i) + more
    ensures Uploaded(w, handler).1 == Err(Unsupported)
    ensures Uploaded(w, handler).0.calls == w.calls + [Call(first, SUCCESS, d.file)]
  {
    HonestPacketsDrain(d, i, w, first, more);
    var e := Drained(w).0;
    assert e.calls[|w.calls|..] == [Call(first, SUCCESS, d.file)];
  }

  /** What an honest device has to say to an object in this state: to a loaded one the
      announcement and all packets, to one in the middle of an upload the rest of them. */
  predicate Serves(d: Device, state: State, replies: seq<Reply>, more: seq<Reply>)
    requires d.Honest()
  {
    match state
    case Loaded => replies == [d.Announcement()] + d.Packets(0) + more
    case Uploading(_, _, _, _, first) =>
      exists i | 0 <= i <= d.full :: state == Halfway(d, i, first) && replies == d.Packets(i) + more
    case _ => true
  }

  /** With an honest device upload returns the file if and only if the object is loaded when
      it is called, as state() tells; otherwise it fails. The handler of a new call is not
      that of an earlier one. */
  lemma HonestUploadSucceedsIffLoaded(d: Device, w: World, handler: nat, more: seq<Reply>)
    requires d.Honest() && Serves(d, w.state, w.replies, more)
    requires w.state.Uploading? ==> w.state.handler != handler
    ensures Uploaded(w, handler).1 == if w.state == Loaded then Ok(d.file) else Err(Unsupported)
  {
    match w.state
    case Loaded => HonestUploadReturnsTheFile(d, w, handler, more);
    case Uploading(_, _, _, _, first) =>
      var i :| 0 <= i <= d.full && w.state == Halfway(d, i, first) && w.replies == d.Packets(i) + more;
      ResumedUploadIsLost(d, i, w, first, handler, more);
    case _ =>
  }
}
