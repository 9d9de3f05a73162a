/**
 Which requests one reply can answer, and hence why calls must not overlap and
 why an error state must refuse a retry.
 */
module Ambiguity {
  import opened Wrappers
  import opened Crc
  import opened Commands
  import opened Session
  import opened Protocol

  /** Some reply is proper for both commands exactly when they use the same function. */
  lemma SharedReply(c: Command, d: Command)
    ensures (exists r :: ProperReply(c, r) && ProperReply(d, r)) <==> FunctionCode(c) == FunctionCode(d)
  {
    if FunctionCode(c) == FunctionCode(d) {
      var r := ExceptionReply(c, 2);
      ExceptionReplyIsProper(c, 2);
      ExceptionReplyIsProper(d, 2);
      assert ProperReply(c, r) && ProperReply(d, r);
    } else {
      forall r | ProperReply(c, r)
        ensures !ProperReply(d, r)
      {
        ReplyNamesFunction(c, r);
        if ProperReply(d, r) {
          ReplyNamesFunction(d, r);
        }
      }
    }
  }

  lemma ExceptionReplyIsProper(c: Command, code: Byte)
    ensures |ExceptionReply(c, code)| == 5 && ExceptionReply(c, code)[2] == code
    ensures IsExceptionResponse(c, ExceptionReply(c, code)) && ProperReply(c, ExceptionReply(c, code))
  {
    hide HasValidCrc, Checksum, Low, High;
    ExceptionResponseImage(c, ExceptionReply(c, code));
  }

  lemma ReplyNamesFunction(c: Command, r: seq<Byte>)
    requires ProperReply(c, r)
    ensures |r| >= 5 && r[0] == UNIT_ADDRESS
    ensures r[1] == FunctionCode(c) || r[1] == FunctionCode(c) + EXCEPTION_FLAG_MASK
  {
    hide HasValidCrc, Frame;
  }

  /**
   Some response is valid for both exactly when they ask for the same number of registers, or write
   the same thing at the same place.
   */
  lemma SharedResponse(c: Command, d: Command)
    ensures (exists r :: IsValidResponse(c, r) && IsValidResponse(d, r)) <==> Confusable(c, d)
  {
    if Confusable(c, d) {
      ConfusingResponse(c, d);
    } else {
      forall r | IsValidResponse(c, r)
        ensures !IsValidResponse(d, r)
      {
        if IsValidResponse(d, r) {
          ResponseTells(c, d, r);
        }
      }
    }
  }

  lemma ConfusingResponse(c: Command, d: Command)
    requires Confusable(c, d)
    ensures exists r :: IsValidResponse(c, r) && IsValidResponse(d, r)
  {
    hide HasValidCrc, IsValidResponse, AppendCrc;
    match c
    case ReadHoldingRegisters(_, q) =>
      var r := ReadReply(seq(2 * q, _ => 0));
      ReadReplyRoundTrip(c, seq(2 * q, _ => 0));
      ReadReplyRoundTrip(d, seq(2 * q, _ => 0));
      assert IsValidResponse(c, r) && IsValidResponse(d, r);
    case WriteSingleRegister(_, _) =>
      ValidWriteSingleResponse(c, Frame(c));
      assert IsValidResponse(d, Frame(c));
    case WriteMultipleRegisters(_, _) =>
      EchoHead(c);
      EchoHead(d);
      var r := AppendCrc(Frame(c)[..6]);
      ValidWriteMultipleResponse(c, r);
      ValidWriteMultipleResponse(d, r);
      assert IsValidResponse(c, r) && IsValidResponse(d, r);
  }

  /** The two words that a write request and its echo start with. */
  function FirstWord(c: Command): nat {
    match c
    case ReadHoldingRegisters(a, _) => a
    case WriteSingleRegister(a, _) => a
    case WriteMultipleRegisters(a, _) => a
  }

  function SecondWord(c: Command): nat {
    match c
    case ReadHoldingRegisters(_, q) => q
    case WriteSingleRegister(_, v) => v
    case WriteMultipleRegisters(_, d) => |d| / 2
  }

  lemma EchoHead(c: Command)
    requires !c.ReadHoldingRegisters?
    ensures Frame(c)[..6] == [UNIT_ADDRESS, FunctionCode(c)] + Uint16Bytes(FirstWord(c)) + Uint16Bytes(SecondWord(c))
  {
    hide Checksum, Low, High, ToByte;
  }

  lemma ResponseTells(c: Command, d: Command, r: seq<Byte>)
    requires IsValidResponse(c, r) && IsValidResponse(d, r)
    ensures Confusable(c, d)
  {
    hide HasValidCrc, Frame, ToByte;
    if !c.ReadHoldingRegisters? && FunctionCode(c) == FunctionCode(d) {
      EchoHead(c);
      EchoHead(d);
      assert r[..6][2..4] == Uint16Bytes(FirstWord(c)) == Uint16Bytes(FirstWord(d));
      assert r[..6][4..6] == Uint16Bytes(SecondWord(c)) == Uint16Bytes(SecondWord(d));
      SameWord(FirstWord(c), FirstWord(d));
      SameWord(SecondWord(c), SecondWord(d));
    }
  }

  lemma SameWord(m: nat, n: nat)
    requires m <= 0xFFFF && n <= 0xFFFF
    ensures Uint16Bytes(m) == Uint16Bytes(n) ==> m == n
  {
    var b := Uint16Bytes(m);
    Uint16RoundTrip(m, b[0], b[1]);
    Uint16RoundTrip(n, b[0], b[1]);
  }


  predicate Confusable(c: Command, d: Command) {
    match (c, d)
    case (ReadHoldingRegisters(_, p), ReadHoldingRegisters(_, q)) => p == q
    case (WriteSingleRegister(_, _), WriteSingleRegister(_, _)) => c == d
    case (WriteMultipleRegisters(a, x), WriteMultipleRegisters(b, y)) => a == b && |x| == |y|
    case _ => false
  }

  // ---------------------------------------------------------------------
  // Overlapping calls.

  /**
   Two calls overlap and the device answers the first. The second is handed that
   answer exactly when the reply is proper for it as well.
   */
  lemma OverlapMisattributes(c: Command, d: Command, reply: seq<Byte>)
    requires ProperReply(c, reply)
    ensures Enabled(START, Perform(c)) &&
            var s1 := Apply(START, Perform(c));
            Enabled(s1, Perform(d)) &&
            var s2 := Apply(s1, Perform(d));
            Enabled(s2, Answer(0, reply)) &&
            var s3 := Apply(s2, Answer(0, reply));
            Enabled(s3, Deliver(|reply|)) &&
            var s4 := Apply(s3, Deliver(|reply|));
            s4.asked == map[0 := c, 1 := d] && s4.replies == map[0 := reply] &&
            (1 in s4.session.settled && IsAnswer(s4.session.settled[1]) <==> ProperReply(d, reply)) &&
            (ProperReply(d, reply) ==> s4.session.settled == map[1 := Meaning(d, reply)])
  {
    hide ProperReply, Meaning, DoPerform, DoAnswer, DoDeliver, Fields.HandleNotification, IsAnswer;
    FirstPerform(c);
    SecondPerform(c, d);
    DeliveredWhole(DoPerform(DoPerform(START, c), d), 0, reply);
    WholeReply(INITIALISED.BeginPerform(0, c).BeginPerform(1, d), d, 1, c, reply);
  }

  lemma FirstPerform(c: Command)
    ensures DoPerform(START, c) ==
            System(INITIALISED.BeginPerform(0, c), 1, map[0 := Call(c, Writing)], map[],
                   map[0 := c], {0}, map[], [], 0, 0)
  {
  }

  lemma SecondPerform(c: Command, d: Command)
    ensures DoPerform(DoPerform(START, c), d) ==
            System(INITIALISED.BeginPerform(0, c).BeginPerform(1, d), 2,
                   map[0 := Call(c, Writing), 1 := Call(d, Writing)], map[],
                   map[0 := c, 1 := d], {0, 1}, map[], [], 0, 0)
  {
    FirstPerform(c);
  }

  /** A reply that arrives in one chunk. */
  lemma DeliveredWhole(s: System, t: Ticket, reply: seq<Byte>)
    requires s.wire == []
    ensures DoAnswer(s, t, reply).wire == reply
    ensures DoDeliver(DoAnswer(s, t, reply), |reply|) ==
            s.(session := s.session.HandleNotification(reply), open := s.open - {t}, replies := s.replies[t := reply])
  {
    hide Fields.HandleNotification;
    assert [] + reply == reply && reply[..|reply|] == reply;
  }

  /** A reply never reads as a control message as a whole. */
  lemma ReplyIsNoControlMessage(c: Command, reply: seq<Byte>)
    requires ProperReply(c, reply)
    ensures !IsAsciiControlMessage(reply)
  {
    ReplyNamesFunction(c, reply);
    hide ProperReply;
    assert Ascii(reply)[0] == UNIT_ADDRESS & 0x7F;
  }

  /** A whole reply, meant for `c` or not, answers the waiter of `d` exactly when it is proper for `d`. */
  lemma WholeReply(f: Fields, d: Command, t: Ticket, c: Command, reply: seq<Byte>)
    requires f.pendingResponse == Some(t) && f.currentCommand == Some(d) && f.responseBuffer == [] && t !in f.settled
    requires ProperReply(c, reply)
    ensures var g := f.HandleNotification(reply);
            (t in g.settled && IsAnswer(g.settled[t]) <==> ProperReply(d, reply)) &&
            (ProperReply(d, reply) ==>
               g == f.ClearPendingState().(settled := f.settled[t := Meaning(d, reply)], state := Ready))
  {
    ReplyIsNoControlMessage(c, reply);
    assert [] + reply == reply && reply[..|reply|] == reply;
    if IsValidResponse(d, reply) {
      NoPrefixIsException(d, reply, |reply|);
    }
    hide IsValidResponse, IsExceptionResponse, IsAsciiControlMessage, ResponseSize;
    HeardWhole(f, d, t, reply);
  }

  lemma ExceptionIsAnswer(code: Byte)
    ensures ModbusException(code) == if code == 5 then DeviceBusy(5) else ModbusError(code)
    ensures IsAnswer(Rejected(ModbusException(code)))
  {
  }

  lemma HeardWhole(f: Fields, d: Command, t: Ticket, reply: seq<Byte>)
    requires f.pendingResponse == Some(t) && f.currentCommand == Some(d) && f.responseBuffer == [] && t !in f.settled
    requires !IsAsciiControlMessage(reply)
    requires IsValidResponse(d, reply) ==> !IsExceptionResponse(d, reply)
    ensures var g := f.HandleNotification(reply);
            (t in g.settled && IsAnswer(g.settled[t]) <==> ProperReply(d, reply)) &&
            (ProperReply(d, reply) ==>
               g == f.ClearPendingState().(settled := f.settled[t := Meaning(d, reply)], state := Ready))
  {
    hide Fields.HandleNotification, IsExceptionResponse, IsValidResponse, IsAsciiControlMessage, ModbusException;
    if IsExceptionResponse(d, reply) {
      ExceptionResponseImage(d, reply);
      HeardException(f, d, t, reply);
      ExceptionIsAnswer(reply[2]);
    } else if IsValidResponse(d, reply) {
      HeardResponse(f, d, t, reply);
    } else {
      HeardNeither(f, d, t, reply);
    }
  }

  lemma HeardException(f: Fields, d: Command, t: Ticket, buffer: seq<Byte>)
    requires f.pendingResponse == Some(t) && f.currentCommand == Some(d) && t !in f.settled && f.responseBuffer == []
    requires !IsAsciiControlMessage(buffer) && IsExceptionResponse(d, buffer) && |buffer| >= 3
    ensures f.HandleNotification(buffer) ==
            f.ClearPendingState().(settled := f.settled[t := Rejected(ModbusException(buffer[2]))], state := Ready)
  {
    hide IsExceptionResponse, IsValidResponse, IsAsciiControlMessage, ResponseSize, ModbusException;
    assert [] + buffer == buffer;
  }

  lemma HeardResponse(f: Fields, d: Command, t: Ticket, buffer: seq<Byte>)
    requires f.pendingResponse == Some(t) && f.currentCommand == Some(d) && t !in f.settled && f.responseBuffer == []
    requires !IsAsciiControlMessage(buffer) && IsValidResponse(d, buffer) && !IsExceptionResponse(d, buffer)
    ensures f.HandleNotification(buffer) ==
            f.ClearPendingState().(settled := f.settled[t := Resolved(buffer)], state := Ready)
  {
    assert |buffer| == ResponseSize(d);
    hide IsExceptionResponse, IsValidResponse, IsAsciiControlMessage, ResponseSize;
    assert [] + buffer == buffer;
  }

  lemma HeardNeither(f: Fields, d: Command, t: Ticket, buffer: seq<Byte>)
    requires f.pendingResponse == Some(t) && f.currentCommand == Some(d) && t !in f.settled && f.responseBuffer == []
    requires !IsAsciiControlMessage(buffer) && !IsValidResponse(d, buffer) && !IsExceptionResponse(d, buffer)
    ensures var g := f.HandleNotification(buffer); t in g.settled ==> g.settled[t] == Rejected(ParseError)
  {
    hide IsExceptionResponse, IsValidResponse, IsAsciiControlMessage, ResponseSize;
    assert [] + buffer == buffer;
  }

  /**
   The comments promise that a timed-out session can accept a retry; `isReady`
   refuses it. Had it accepted one, a late reply would have answered it whenever
   it is proper for the retried command.
   */
  lemma RetryWouldMisattribute(c: Command, d: Command, reply: seq<Byte>)
    requires ProperReply(c, reply)
    ensures var timedOut := INITIALISED.BeginPerform(0, c).OnTimeout(0);
            !timedOut.IsReady() &&
            timedOut.settled == map[0 := Rejected(CommandTimeout)] &&
            var after := timedOut.BeginPerform(1, d).HandleNotification(reply);
            1 in after.settled && IsAnswer(after.settled[1]) <==> ProperReply(d, reply)
  {
    hide ProperReply, Meaning, Fields.HandleNotification, IsAnswer;
    WholeReply(INITIALISED.BeginPerform(0, c).OnTimeout(0).BeginPerform(1, d), d, 1, c, reply);
  }
}
