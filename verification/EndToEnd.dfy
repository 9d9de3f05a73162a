/**
 From a device's registers to parsed fields over whole runs of the bridge: the
 queue, any number of sessions per address, and any chunking of the replies.
 */
module EndToEnd {
  import opened Crc
  import opened Commands
  import opened Field
  import opened Struct
  import opened Bridge
  import opened RoundTrip
  import Session
  import P = Protocol
  import Q = Queue
  import Correlation

  /** A reply that a session knows of was known before, or some event of the run is the device giving it. */
  ghost predicate Given(b: Bridge, events: seq<Event>, l: Link, t: Ticket, reply: seq<Byte>) {
    || (l in b.sessions && t in b.sessions[l].replies && b.sessions[l].replies[t] == reply)
    || exists i :: 0 <= i < |events| && events[i] == Step(l, P.Answer(t, reply))
  }

  lemma StepGives(b: Bridge, e: Event, l: Link, t: Ticket, reply: seq<Byte>)
    requires Enabled(b, e)
    requires var d := Apply(b, e); l in d.sessions && t in d.sessions[l].replies && d.sessions[l].replies[t] == reply
    ensures Given(b, [e], l, t, reply)
  {
    match e {
      case Step(m, event) =>
        if m == l {
          SessionGives(b.sessions[l], event, t, reply);
          assert [e][0] == e;
        }
      case _ =>
    }
    hide P.Apply, P.Enabled, Session.Fields.BeginPerform, Q.Chain.Linked, Q.Chain.CanStart;
  }

  lemma SessionGives(s: P.System, e: P.Event, t: Ticket, reply: seq<Byte>)
    requires P.Enabled(s, e)
    requires t in P.Apply(s, e).replies && P.Apply(s, e).replies[t] == reply
    ensures (t in s.replies && s.replies[t] == reply) || e == P.Answer(t, reply)
  {
    hide P.ProperReply, Session.Fields.HandleNotification;
  }

  lemma {:induction false} RepliesAreGiven(b: Bridge, events: seq<Event>, l: Link, t: Ticket)
    requires IsRun(b, events)
    requires l in After(b, events).sessions && t in After(b, events).sessions[l].replies
    ensures Given(b, events, l, t, After(b, events).sessions[l].replies[t])
    decreases |events|
  {
    if events != [] {
      hide Enabled, Apply, Given;
      var reply := After(b, events).sessions[l].replies[t];
      var d, rest := Apply(b, events[0]), events[1..];
      RepliesAreGiven(d, rest, l, t);
      GivenEarlier(b, d, events, l, t, reply);
    }
  }

  lemma GivenEarlier(b: Bridge, d: Bridge, events: seq<Event>, l: Link, t: Ticket, reply: seq<Byte>)
    requires events != [] && Enabled(b, events[0]) && d == Apply(b, events[0])
    requires Given(d, events[1..], l, t, reply)
    ensures Given(b, events, l, t, reply)
  {
    hide Enabled, Apply;
    if i :| 0 <= i < |events[1..]| && events[1..][i] == Step(l, P.Answer(t, reply)) {
      assert events[i + 1] == Step(l, P.Answer(t, reply));
    } else {
      StepGives(b, events[0], l, t, reply);
      if !(l in b.sessions && t in b.sessions[l].replies && b.sessions[l].replies[t] == reply) {
        var i :| 0 <= i < 1 && [events[0]][i] == Step(l, P.Answer(t, reply));
        assert events[0] == Step(l, P.Answer(t, reply));
      }
    }
  }

  /** What the payload of a reply from memory decodes to. */
  lemma ReplyDecodesMemory(fields: seq<DeviceField>, m: Memory, c: Command)
    requires c.ReadHoldingRegisters?
    ensures IsValidResponse(c, MemoryReply(m, c))
    ensures var data := ParseResponse(c, MemoryReply(m, c));
            |data| == 2 * c.quantity &&
            Window(fields, c.startingAddress, Words(data)) == DecodeWindow(fields, m, c.startingAddress, c.quantity)
  {
    hide MemoryReply, Window, DecodeWindow, WordBytes, Words, IsValidResponse, ParseResponse;
    MemoryReplyIsProper(m, c);
    WordsOfWordBytes(Slice(m, c.startingAddress, c.quantity));
    WindowOfMemory(fields, m, c.startingAddress, c.quantity);
    WordBytesLength(Slice(m, c.startingAddress, c.quantity));
  }

  lemma WordBytesLength(words: seq<Register>)
    ensures |WordBytes(words)| == 2 * |words|
  {
  }

  /** Every valid response to a read is the reply of some register memory. */
  lemma ResponseHasMemory(c: Command, response: seq<Byte>)
    requires c.ReadHoldingRegisters? && IsValidResponse(c, response)
    ensures exists m: Memory :: response == MemoryReply(m, c)
  {
    ValidReadResponse(c, response);
    var data := response[3..|response| - 2];
    var words := Words(data);
    var m: Memory :=
      (a: nat) => if c.startingAddress <= a < c.startingAddress + |words| then words[a - c.startingAddress] else 0;
    assert Slice(m, c.startingAddress, c.quantity) == words;
    hide IsValidResponse, Words, WordBytes, ReadReply;
    WordsRoundTrip(data);
    assert response == MemoryReply(m, c);
  }

  /**
   The response comes from some register memory, and from whichever it comes, its
   payload parses to exactly the fields decoded directly from that memory.
   */
  ghost predicate DecodesMemory(fields: seq<DeviceField>, c: Command, response: seq<Byte>)
    requires c.ReadHoldingRegisters? && IsValidResponse(c, response)
  {
    var data := ParseResponse(c, response);
    && |data| == 2 * c.quantity
    && (exists m: Memory :: response == MemoryReply(m, c))
    && forall m: Memory :: response == MemoryReply(m, c) ==>
         Window(fields, c.startingAddress, Words(data)) == DecodeWindow(fields, m, c.startingAddress, c.quantity)
  }

  lemma ResponseDecodes(fields: seq<DeviceField>, c: Command, response: seq<Byte>)
    requires c.ReadHoldingRegisters? && IsValidResponse(c, response)
    ensures DecodesMemory(fields, c, response)
  {
    hide MemoryReply, Window, DecodeWindow, Words, IsValidResponse, ParseResponse;
    ResponseHasMemory(c, response);
    forall m: Memory | response == MemoryReply(m, c)
      ensures var data := ParseResponse(c, response);
              |data| == 2 * c.quantity &&
              Window(fields, c.startingAddress, Words(data)) == DecodeWindow(fields, m, c.startingAddress, c.quantity)
    {
      ReplyDecodesMemory(fields, m, c);
    }
  }

  /** The call of item `k` has returned a response to a read. */
  ghost predicate HasRead(b: Bridge, k: nat) {
    && k in b.calls && k < |b.jobs| && b.jobs[k].ReadHoldingRegisters? && b.calls[k].link in b.sessions
    && var s, t := b.sessions[b.calls[k].link], b.calls[k].ticket;
       t in s.returned && s.returned[t].Resolved?
  }

  ghost function ResponseOf(b: Bridge, k: nat): seq<Byte>
    requires HasRead(b, k)
  {
    b.sessions[b.calls[k].link].returned[b.calls[k].ticket].response
  }

  /**
   In every run of the bridge over clean channels: the response that a read item's
   call returns was given by the device to that very request, and parses to the
   fields of the register memory it was given from.
   */
  lemma ReadJobsDecodeMemory(addresses: set<string>, events: seq<Event>, k: nat, fields: seq<DeviceField>)
    requires IsRun(Initial(addresses), events) && AllClean(events)
    requires HasRead(After(Initial(addresses), events), k)
    ensures var b := After(Initial(addresses), events);
            var response := ResponseOf(b, k);
            (exists i :: 0 <= i < |events| &&
              events[i] == Step(b.calls[k].link, P.Answer(b.calls[k].ticket, response))) &&
            IsValidResponse(b.jobs[k], response) && DecodesMemory(fields, b.jobs[k], response)
  {
    JobsGetOwnReplies(addresses, events, k);
    var b := After(Initial(addresses), events);
    OwnResponse(b, k);
    RepliesAreGiven(Initial(addresses), events, b.calls[k].link, b.calls[k].ticket);
    hide IsRun, After, IsValidResponse, DecodesMemory, Correlation.IsOwn;
    ResponseDecodes(fields, b.jobs[k], ResponseOf(b, k));
  }

  lemma OwnResponse(b: Bridge, k: nat)
    requires HasRead(b, k)
    requires var l, t := b.calls[k].link, b.calls[k].ticket;
             t in b.sessions[l].asked && b.sessions[l].asked[t] == b.jobs[k] && Correlation.IsOwn(b.sessions[l], t)
    ensures var s, t := b.sessions[b.calls[k].link], b.calls[k].ticket;
            t in s.replies && s.replies[t] == ResponseOf(b, k) && IsValidResponse(b.jobs[k], ResponseOf(b, k))
  {
    hide IsValidResponse;
  }
}
