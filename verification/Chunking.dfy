/**
 Reassembly of one reply from arbitrary notification chunks by
 `handleNotification` of src/bluetooth/device-session.ts.
 */
module Chunking {
  import opened Wrappers
  import opened Crc
  import opened Commands
  import opened Session
  import opened Protocol

  function DeliverAll(f: Fields, chunks: seq<seq<Byte>>): Fields
    decreases |chunks|
  {
    if chunks == [] then f else DeliverAll(f.HandleNotification(chunks[0]), chunks[1..])
  }

  function Flatten(chunks: seq<seq<Byte>>): seq<Byte> {
    if chunks == [] then [] else chunks[0] + Flatten(chunks[1..])
  }

  predicate HasControlMessage(chunks: seq<seq<Byte>>) {
    exists i :: 0 <= i < |chunks| && IsAsciiControlMessage(chunks[i])
  }

  lemma {:induction false} NobodyWaiting(f: Fields, chunks: seq<seq<Byte>>)
    requires f.pendingResponse == None
    ensures DeliverAll(f, chunks) == f
    decreases |chunks|
  {
    if chunks != [] {
      NobodyListens(f, chunks[0]);
      NobodyWaiting(f, chunks[1..]);
    }
  }

  lemma {:induction false} EmptyChunksCarryNothing(chunks: seq<seq<Byte>>)
    requires Flatten(chunks) == []
    ensures !HasControlMessage(chunks)
    decreases |chunks|
  {
    if chunks != [] {
      assert chunks[0] == [];
      EmptyChunksCarryNothing(chunks[1..]);
      assert Ascii([]) == [];
      forall i | 0 <= i < |chunks|
        ensures !IsAsciiControlMessage(chunks[i])
      {
        if i > 0 {
          assert chunks[i] == chunks[1..][i - 1];
        }
      }
    }
  }

  lemma ControlMessageSplit(chunks: seq<seq<Byte>>)
    requires chunks != []
    ensures HasControlMessage(chunks) <==> IsAsciiControlMessage(chunks[0]) || HasControlMessage(chunks[1..])
  {
    hide IsAsciiControlMessage;
    if HasControlMessage(chunks) {
      var i :| 0 <= i < |chunks| && IsAsciiControlMessage(chunks[i]);
      assert i > 0 ==> chunks[i] == chunks[1..][i - 1];
    }
    if HasControlMessage(chunks[1..]) {
      var i :| 0 <= i < |chunks[1..]| && IsAsciiControlMessage(chunks[1..][i]);
      assert chunks[i + 1] == chunks[1..][i];
    }
  }

  /**
   However one proper reply is cut up, the waiting call is settled with what the
   reply means, exactly when no chunk happens to read as an AT control message;
   otherwise the call is rejected and the session goes down.
   */
  lemma {:induction false} AnyChunking(f: Fields, t: Ticket, reply: seq<Byte>, chunks: seq<seq<Byte>>)
    requires Coupled(f, false) && f.pendingResponse == Some(t)
    requires ProperReply(f.currentCommand.value, reply)
    requires f.responseBuffer + Flatten(chunks) == reply && Flatten(chunks) != []
    ensures var g := DeliverAll(f, chunks);
            g.pendingResponse == None &&
            if HasControlMessage(chunks)
            then g.state == Disconnecting && g.settled == f.settled[t := Rejected(BadConnection)]
            else
              g.state == Ready && g.settled == f.settled[t := Meaning(f.currentCommand.value, reply)] &&
              (IsExceptionResponse(f.currentCommand.value, reply) ==>
                 (g.settled[t] == Rejected(DeviceBusy(5)) <==> reply[2] == 5) &&
                 (g.settled[t] == Rejected(ModbusError(reply[2])) <==> reply[2] != 5)) &&
              (IsValidResponse(f.currentCommand.value, reply) ==> g.settled[t] == Resolved(reply))
    decreases |chunks|
  {
    MeaningSaid(f.currentCommand.value, reply);
    hide ProperReply, Meaning, IsValidResponse, IsExceptionResponse, IsAsciiControlMessage, HasControlMessage,
         Fields.HandleNotification;
    var chunk, rest := chunks[0], chunks[1..];
    assert f.responseBuffer + chunk + Flatten(rest) == reply;
    ChunkOfReply(f, t, reply, chunk, Flatten(rest), false);
    ControlMessageSplit(chunks);
    var after := f.HandleNotification(chunk);
    if IsAsciiControlMessage(chunk) {
      NobodyWaiting(after, rest);
    } else if Flatten(rest) == [] {
      NobodyWaiting(after, rest);
      EmptyChunksCarryNothing(rest);
    } else {
      AnyChunking(after, t, reply, rest);
    }
  }

  /** A response stands for itself; an exception says that the device is busy exactly if its code is 5. */
  lemma MeaningSaid(c: Command, reply: seq<Byte>)
    requires ProperReply(c, reply)
    ensures IsExceptionResponse(c, reply) ==>
              |reply| == 5 &&
              (Meaning(c, reply) == Rejected(DeviceBusy(5)) <==> reply[2] == 5) &&
              (Meaning(c, reply) == Rejected(ModbusError(reply[2])) <==> reply[2] != 5)
    ensures IsValidResponse(c, reply) ==> Meaning(c, reply) == Resolved(reply)
  {
    if IsValidResponse(c, reply) {
      ResponseMeansItself(c, reply);
      NoPrefixIsException(c, reply, |reply|);
      assert reply[..|reply|] == reply;
    }
    hide HasValidCrc, Frame;
  }

  // ---------------------------------------------------------------------
  // Bytes after the reply.

  /** Some number of leading chunks adds up to exactly `target` bytes. */
  predicate BoundaryAt(target: int, chunks: seq<seq<Byte>>)
    decreases |chunks|
  {
    target == 0 || (chunks != [] && BoundaryAt(target - |chunks[0]|, chunks[1..]))
  }

  /** A chunk that runs past the expected size is rejected whole. */
  lemma Overrun(f: Fields, t: Ticket, chunk: seq<Byte>)
    requires Coupled(f, false) && f.pendingResponse == Some(t)
    requires |f.responseBuffer + chunk| > ResponseSize(f.currentCommand.value)
    requires !IsAsciiControlMessage(chunk)
    ensures var g := f.HandleNotification(chunk);
            g.pendingResponse == None && g.state == CommandErrorWait &&
            g.settled == f.settled[t := Rejected(ParseError)]
  {
    hide IsAsciiControlMessage, HasValidCrc, Frame;
  }

  lemma {:induction false} NoBoundaryBelow(target: int, chunks: seq<seq<Byte>>)
    requires target < 0
    ensures !BoundaryAt(target, chunks)
    decreases |chunks|
  {
    if chunks != [] {
      NoBoundaryBelow(target - |chunks[0]|, chunks[1..]);
    }
  }

  /**
   With bytes behind the reply the outcome depends on the chunks: the call
   resolves exactly when one of them ends where the reply ends. Otherwise the
   good reply is lost to a ParseError.
   */
  lemma {:induction false} TrailingBytes(
    f: Fields, t: Ticket, reply: seq<Byte>, extra: seq<Byte>, chunks: seq<seq<Byte>>
  )
    requires Coupled(f, false) && f.pendingResponse == Some(t)
    requires IsValidResponse(f.currentCommand.value, reply)
    requires f.responseBuffer + Flatten(chunks) == reply + extra && extra != []
    requires !HasControlMessage(chunks)
    ensures var g := DeliverAll(f, chunks);
            g.settled == f.settled[t := if BoundaryAt(|reply| - |f.responseBuffer|, chunks)
                                        then Resolved(reply) else Rejected(ParseError)]
    decreases |chunks|
  {
    hide Meaning, HasValidCrc, Frame, IsAsciiControlMessage, HasControlMessage, Fields.HandleNotification;
    var chunk, rest := chunks[0], chunks[1..];
    var c, buffer := f.currentCommand.value, f.responseBuffer + chunk;
    ControlMessageSplit(chunks);
    assert buffer + Flatten(rest) == reply + extra;
    if |buffer| > |reply| {
      Overrun(f, t, chunk);
      NobodyWaiting(f.HandleNotification(chunk), rest);
      NoBoundaryBelow(|reply| - |buffer|, rest);
    } else {
      var missing := reply[|buffer|..];
      assert buffer == (reply + extra)[..|buffer|] == reply[..|buffer|];
      assert f.responseBuffer + chunk + missing == reply;
      ChunkOfReply(f, t, reply, chunk, missing, false);
      if missing == [] {
        NobodyWaiting(f.HandleNotification(chunk), rest);
        NoPrefixIsException(c, reply, |reply|);
        assert reply[..|reply|] == reply;
        ResponseMeansItself(c, reply);
      } else {
        TrailingBytes(f.HandleNotification(chunk), t, reply, extra, rest);
      }
    }
  }

  /** What becomes of `total` once its first bytes are an exception that was not recognised in time. */
  ghost predicate ExceptionMissed(f: Fields, g: Fields, t: Ticket, total: seq<Byte>)
    requires f.currentCommand.Some?
  {
    if |total| >= ResponseSize(f.currentCommand.value) then g.settled == f.settled[t := Rejected(ParseError)]
    else g == f.(responseBuffer := total)
  }

  /** One chunk more when the buffer has run past an exception frame. */
  lemma ChunkPastException(f: Fields, t: Ticket, reply: seq<Byte>, chunk: seq<Byte>)
    requires f.pendingResponse == Some(t) && f.currentCommand.Some? && t !in f.settled
    requires IsExceptionResponse(f.currentCommand.value, reply) && !IsAsciiControlMessage(chunk)
    requires reply <= f.responseBuffer + chunk && |reply| < |f.responseBuffer + chunk|
    ensures var g, buffer := f.HandleNotification(chunk), f.responseBuffer + chunk;
            if |buffer| >= ResponseSize(f.currentCommand.value)
            then g.pendingResponse == None && g.settled == f.settled[t := Rejected(ParseError)]
            else g == f.(responseBuffer := buffer)
  {
    hide HasValidCrc, IsAsciiControlMessage, Frame;
    assert (f.responseBuffer + chunk)[1] == reply[1];
  }

  lemma {:induction false} PastException(f: Fields, t: Ticket, reply: seq<Byte>, chunks: seq<seq<Byte>>)
    requires f.pendingResponse == Some(t) && f.currentCommand.Some? && t !in f.settled
    requires IsExceptionResponse(f.currentCommand.value, reply) && !HasControlMessage(chunks)
    requires reply <= f.responseBuffer && |reply| < |f.responseBuffer| < ResponseSize(f.currentCommand.value)
    ensures ExceptionMissed(f, DeliverAll(f, chunks), t, f.responseBuffer + Flatten(chunks))
    decreases |chunks|
  {
    hide IsExceptionResponse, IsAsciiControlMessage, HasControlMessage, ResponseSize, Fields.HandleNotification;
    if chunks == [] {
      assert f.responseBuffer + [] == f.responseBuffer;
    } else {
      var chunk, rest := chunks[0], chunks[1..];
      var g := f.HandleNotification(chunk);
      ControlMessageSplit(chunks);
      ChunkPastException(f, t, reply, chunk);
      assert f.responseBuffer + Flatten(chunks) == f.responseBuffer + chunk + Flatten(rest);
      if |f.responseBuffer + chunk| >= ResponseSize(f.currentCommand.value) {
        NobodyWaiting(g, rest);
      } else {
        PastException(g, t, reply, rest);
      }
    }
  }

  /**
   Bytes behind an exception frame: it is recognised exactly when a chunk ends
   with it. Otherwise enough bytes make a ParseError, and too few leave the call
   waiting for its timeout.
   */
  lemma {:induction false} TrailingBytesAfterException(
    f: Fields, t: Ticket, reply: seq<Byte>, extra: seq<Byte>, chunks: seq<seq<Byte>>
  )
    requires Coupled(f, false) && f.pendingResponse == Some(t)
    requires IsExceptionResponse(f.currentCommand.value, reply) && |f.responseBuffer| < |reply|
    requires f.responseBuffer + Flatten(chunks) == reply + extra && extra != []
    requires !HasControlMessage(chunks)
    ensures var g := DeliverAll(f, chunks);
            if BoundaryAt(|reply| - |f.responseBuffer|, chunks)
            then g.settled == f.settled[t := Meaning(f.currentCommand.value, reply)] && g.state == Ready
            else ExceptionMissed(f, g, t, reply + extra)
    decreases |chunks|
  {
    hide Meaning, IsExceptionResponse, IsAsciiControlMessage, HasControlMessage, Fields.HandleNotification,
         ResponseSize;
    var chunk, rest := chunks[0], chunks[1..];
    var buffer := f.responseBuffer + chunk;
    var g := f.HandleNotification(chunk);
    ControlMessageSplit(chunks);
    assert buffer + Flatten(rest) == reply + extra;
    if |buffer| > |reply| {
      assert reply == (reply + extra)[..|reply|] == buffer[..|reply|];
      NoBoundaryBelow(|reply| - |buffer|, rest);
      ChunkPastException(f, t, reply, chunk);
      if g.pendingResponse == None {
        NobodyWaiting(g, rest);
      } else {
        PastException(g, t, reply, rest);
      }
    } else {
      var missing := reply[|buffer|..];
      assert buffer == (reply + extra)[..|buffer|] == reply[..|buffer|];
      assert f.responseBuffer + chunk + missing == reply;
      ChunkOfReply(f, t, reply, chunk, missing, false);
      if missing == [] {
        assert |reply| - |f.responseBuffer| == |chunk| && BoundaryAt(0, rest);
        NobodyWaiting(g, rest);
      } else {
        TrailingBytesAfterException(g, t, reply, extra, rest);
      }
    }
  }

  lemma ResponseMeansItself(c: Command, reply: seq<Byte>)
    requires IsValidResponse(c, reply)
    ensures Meaning(c, reply) == Resolved(reply)
  {
    hide HasValidCrc, Frame;
    NoPrefixIsException(c, reply, |reply|);
    assert reply[..|reply|] == reply;
  }
}
