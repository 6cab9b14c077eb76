/** The incremental receiver of the network thread on top of the receive ring. */
module MessageReader {
  import opened Bytes
  import opened Ring
  import opened Framing
  import opened Transport
  import CiSocket

  /** `Unrepresentable`: the length field asks for a ring whose size is no 32-bit integer.
      What the source then computes is undefined, and the model stops there. */
  datatype Receipt = False | True | Interim | Unrepresentable

  predicate Representable(length: Int32) {
    HEADER_SIZE + BodySize(length) < INT_MAX
  }

  /** How often the network reported an error or memory ran out. */
  ghost function Faults(s: CiSocket.Socket): nat
    reads s`shortages, s.net`failures
  {
    s.net.failures + s.shortages
  }

  /** The network had no more bytes to give for now, or for good. */
  ghost predicate NoMore(s: CiSocket.Socket, refusals: nat)
    reads s.net`refusals, s.net`peerClosed
  {
    s.net.refusals > refusals || s.net.peerClosed
  }

  /** The first half of a call: completes the header if it is not there yet. */
  method ReceiveHeader(s: CiSocket.Socket)
    returns (result: Receipt, headerNow: bool, ghost got: seq<Byte>, ghost fault: bool)
    requires s.Valid() && (s.recvStart == 0 || s.recvStart == s.recvEnd)
    modifies s`recvBuffer, s`recvStart, s`recvEnd, s`shortages, s.recvBuffer,
             s.net`received, s.net`peerClosed, s.net`refusals, s.net`failures
    ensures s.Valid() && (s.recvStart == 0 || s.recvStart == s.recvEnd)
    ensures s.recvBuffer == old(s.recvBuffer) || fresh(s.recvBuffer)
    ensures s.net.received == old(s.net.received) + got
    ensures s.RecvQueue() == old(s.RecvQueue()) + got
    ensures headerNow == (old(|s.RecvQueue()|) < 8 && result.True?)
    ensures result.True? ==> (if headerNow then |s.RecvQueue()| == 8 && got != [] else got == []) && !fault
    ensures !result.True? ==> |s.RecvQueue()| < 8
    ensures |s.RecvQueue()| > 8 ==> got == []
    ensures |s.RecvQueue()| < 8 ==> !result.True?
    ensures result.Interim? ==> got != [] && !fault && s.recvStart == 0
    ensures result.False? ==> fault || got == []
    ensures !result.Unrepresentable?
    ensures Faults(s) == old(Faults(s)) + if fault then 1 else 0
    ensures s.net.refusals >= old(s.net.refusals)
    ensures result.Interim? || (result.False? && !fault) ==> NoMore(s, old(s.net.refusals))
  {
    got, fault, headerNow := [], false, false;
    var size := s.GetCurrentRecvDataSize();
    if size < 8 {
      var ok;
      ghost var base;
      ok, base, got := s.ReadFromNetworkToBufferSized(8 - size);
      if !ok {
        return False, false, got, true;
      }
      if s.GetCurrentRecvDataSize() == size {
        return False, false, got, false;
      }
      if s.GetCurrentRecvDataSize() < 8 {
        return Interim, false, got, false;
      }
      headerNow := true;
    }
    result := True;
  }

  /** The second half: reads on to the end of the body that the header announces. */
  method ReceiveBody(s: CiSocket.Socket, length: Int32, headerNow: bool)
    returns (result: Receipt, ghost got: seq<Byte>, ghost fault: bool)
    requires s.Valid() && (s.recvStart == 0 || s.recvStart == s.recvEnd)
    requires 8 <= |s.RecvQueue()| <= 8 + BodySize(length) < INT_MAX
    requires if headerNow then |s.RecvQueue()| == 8 else |s.RecvQueue()| < 8 + BodySize(length)
    modifies s`recvBuffer, s`recvStart, s`recvEnd, s`shortages, s.recvBuffer,
             s.net`received, s.net`peerClosed, s.net`refusals, s.net`failures
    ensures s.Valid() && (s.recvStart == 0 || s.recvStart == s.recvEnd)
    ensures s.recvBuffer == old(s.recvBuffer) || fresh(s.recvBuffer)
    ensures s.net.received == old(s.net.received) + got
    ensures s.RecvQueue() == old(s.RecvQueue()) + got
    ensures |s.RecvQueue()| <= 8 + BodySize(length)
    ensures match result
            case True => |s.RecvQueue()| == 8 + BodySize(length) && !fault && (got != [] || headerNow)
            case Interim => |s.RecvQueue()| < 8 + BodySize(length) && !fault && (got != [] || headerNow)
            case False => |s.RecvQueue()| < 8 + BodySize(length) && (fault || (got == [] && !headerNow))
            case Unrepresentable => false
    ensures Faults(s) == old(Faults(s)) + if fault then 1 else 0
    ensures s.net.refusals >= old(s.net.refusals)
    ensures result.Interim? || (result.False? && !fault) ==> NoMore(s, old(s.net.refusals))
  {
    got, fault := [], false;
    if length > 0 {
      var size := s.GetCurrentRecvDataSize();
      var ok;
      ghost var base;
      ok, base, got := s.ReadFromNetworkToBufferSized(length - (size - 8));
      if !ok {
        return False, got, true;
      }
      if !headerNow && size == s.GetCurrentRecvDataSize() {
        return False, got, false;
      }
    }
    if s.GetCurrentRecvDataSize() < 8 + length {
      return Interim, got, false;
    }
    result := True;
  }

  /** What the bytes of the frame under way look like after a call that answered `result`:
      never more than that one frame, and whole exactly when a message is announced. */
  predicate Verdict(q: seq<Byte>, result: Receipt) {
    match result
    case True => Complete(q) && |q| == FrameSize(q) && Representable(LengthField(q))
    case Unrepresentable => |q| == HEADER_SIZE && !Representable(LengthField(q))
    case _ => !Complete(q) && (HEADER_SIZE <= |q| ==> Representable(LengthField(q)))
  }

  lemma VerdictOnBody(q: seq<Byte>, more: seq<Byte>, result: Receipt)
    requires HEADER_SIZE <= |q| && |q + more| <= FrameSize(q) && Representable(LengthField(q))
    requires !result.Unrepresentable?
    requires result.True? <==> |q + more| == FrameSize(q)
    ensures Verdict(q + more, result)
  {
    assert (q + more)[4..8] == q[4..8];
  }

  /** What follows a complete header `q`. */
  method ReceiveRest(s: CiSocket.Socket, headerNow: bool)
    returns (result: Receipt, message: Int32, ghost q: seq<Byte>, ghost fault: bool)
    requires s.Valid() && (s.recvStart == 0 || s.recvStart == s.recvEnd)
    requires if headerNow then |s.RecvQueue()| == 8
             else HEADER_SIZE <= |s.RecvQueue()| && Verdict(s.RecvQueue(), Interim)
    modifies s`recvBuffer, s`recvStart, s`recvEnd, s`shortages, s.recvBuffer,
             s.net`received, s.net`peerClosed, s.net`refusals, s.net`failures
    ensures s.Valid() && (result.True? || s.recvStart == 0 || s.recvStart == s.recvEnd)
    ensures s.recvStart <= s.recvEnd
    ensures s.recvBuffer == old(s.recvBuffer) || fresh(s.recvBuffer)
    ensures old(s.RecvQueue()) <= q
    ensures s.net.received == old(s.net.received) + q[|old(s.RecvQueue())|..]
    ensures Verdict(q, result)
    ensures result.True? ==> message == FirstFrame(q).message
    ensures s.RecvQueue() == if result.True? then q[4..] else q
    ensures result.False? <==> fault || (|q| == |old(s.RecvQueue())| && !headerNow)
    ensures Faults(s) == old(Faults(s)) + if fault then 1 else 0
    ensures s.net.refusals >= old(s.net.refusals)
    ensures result.Interim? || (result.False? && !fault) ==> NoMore(s, old(s.net.refusals))
  {
    message := 0;
    q := s.RecvQueue();
    var known, length := s.LookAheadInt32(4);
    if !known {
      assert false;
    }
    if !Representable(length) {
      return Unrepresentable, 0, q, false;
    }
    ghost var more;
    result, more, fault := ReceiveBody(s, length, headerNow);
    VerdictOnBody(q, more, result);
    q := q + more;
    if result.True? {
      var read;
      read, message := s.ReadInt32();
      if !read {
        assert false;
      }
    }
  }

  /** One call on a readable socket. `q` is the frame under way, with what the network
      delivered during the call; `fault` is a network error or want of memory. */
  method ReceiveIntMessage(s: CiSocket.Socket)
    returns (result: Receipt, message: Int32, ghost q: seq<Byte>, ghost fault: bool)
    requires s.Valid() && (s.recvStart == 0 || s.recvStart == s.recvEnd)
    requires Verdict(s.RecvQueue(), Interim)
    modifies s`recvBuffer, s`recvStart, s`recvEnd, s`shortages, s.recvBuffer,
             s.net`received, s.net`peerClosed, s.net`refusals, s.net`failures
    ensures s.Valid() && (result.True? || s.recvStart == 0 || s.recvStart == s.recvEnd)
    ensures s.recvStart <= s.recvEnd
    ensures s.recvBuffer == old(s.recvBuffer) || fresh(s.recvBuffer)
    ensures old(s.RecvQueue()) <= q
    ensures s.net.received == old(s.net.received) + q[|old(s.RecvQueue())|..]
    ensures Verdict(q, result)
    // It stops for its size's sake only at a length field of 0x7fff_fff7 or more.
    ensures result.Unrepresentable? <==> 8 <= |q| && BytesInt32(q[4..8]) >= 0x7fff_ffff - 8
    ensures result.True? ==> message == FirstFrame(q).message
    ensures s.RecvQueue() == if result.True? then q[4..] else q
    ensures result.False? <==> fault || |q| == |old(s.RecvQueue())|
    ensures Faults(s) == old(Faults(s)) + if fault then 1 else 0
    ensures s.net.refusals >= old(s.net.refusals)
    ensures result.Interim? || (result.False? && !fault) ==> NoMore(s, old(s.net.refusals))
  {
    ghost var q0 := s.RecvQueue();
    ghost var head;
    var headerNow;
    result, headerNow, head, fault := ReceiveHeader(s);
    q := s.RecvQueue();
    if !result.True? {
      return result, 0, q, fault;
    }
    assert !headerNow ==> q == q0;
    result, message, q, fault := ReceiveRest(s, headerNow);
    Continued(old(s.net.received), q0, head, q);
  }

  lemma Continued(received: seq<Byte>, q0: seq<Byte>, head: seq<Byte>, q: seq<Byte>)
    requires q0 + head <= q
    ensures q0 <= q && (received + head) + q[|q0 + head|..] == received + q[|q0|..]
  {
    assert q[|q0|..] == head + q[|q0 + head|..];
  }

  // ----- Whole runs -----

  /** What a handler owes the protocol: it takes the length and the body off the ring. */
  method ConsumeBody(s: CiSocket.Socket, ghost q: seq<Byte>) returns (body: seq<Byte>)
    requires s.Valid() && Verdict(q, True) && s.RecvQueue() == q[4..]
    modifies s`recvStart
    ensures s.Valid() && s.recvStart == s.recvEnd
    ensures body == FirstFrame(q).body
  {
    assert q[4..][..4] == q[4..8];
    var ok, length := s.ReadInt32();
    assert q[4..][4..] == q[8..];
    body := [];
    if length > 0 {
      ok, body := s.ReadN(length);
    }
  }

  /** Between two calls the ring starts at its origin or is empty, holds less than a frame,
      and with the frames handed over makes up everything received. */
  ghost predicate Consistent(s: CiSocket.Socket, delivered: seq<Frame>)
    reads s, s.recvBuffer, s.net`received
  {
    && s.Valid()
    && (s.recvStart == 0 || s.recvStart == s.recvEnd)
    && Verdict(s.RecvQueue(), Interim)
    && (forall f <- delivered :: f.WellFormed())
    && s.net.received == EncodeAll(delivered) + s.RecvQueue()
  }

  lemma DeliverOne(received: seq<Byte>, delivered: seq<Frame>, q0: seq<Byte>, q: seq<Byte>)
    requires received == EncodeAll(delivered) + q0 && q0 <= q
    requires Verdict(q, True)
    ensures received + q[|q0|..] == EncodeAll(delivered + [FirstFrame(q)])
  {
    FirstFrameRoundTrip(q);
    EncodeOne(FirstFrame(q));
    EncodeAllAppend(delivered, [FirstFrame(q)]);
    assert q[..|q|] == q;
    Rejoin(EncodeAll(delivered), q0, q);
  }

  lemma Rejoin(a: seq<Byte>, q0: seq<Byte>, q: seq<Byte>)
    requires q0 <= q
    ensures (a + q0) + q[|q0|..] == a + q
  {
    assert q0 + q[|q0|..] == q;
    assert (a + q0) + q[|q0|..] == a + (q0 + q[|q0|..]);
  }

  /** One readiness event of a socket: receive, and hand a whole message to the handler. */
  method OnReadable(s: CiSocket.Socket, ghost delivered: seq<Frame>)
    returns (result: Receipt, message: Int32, body: seq<Byte>, ghost now: seq<Frame>)
    requires Consistent(s, delivered)
    modifies s`recvBuffer, s`recvStart, s`recvEnd, s`shortages, s.recvBuffer,
             s.net`received, s.net`peerClosed, s.net`refusals, s.net`failures
    ensures s.recvBuffer == old(s.recvBuffer) || fresh(s.recvBuffer)
    ensures s.Valid() && (!result.Unrepresentable? ==> Consistent(s, now))
    ensures (forall f <- now :: f.WellFormed()) && s.net.received == EncodeAll(now) + s.RecvQueue()
    ensures !Complete(s.RecvQueue())
    ensures result.Unrepresentable? <==>
            8 <= |s.RecvQueue()| && BytesInt32(s.RecvQueue()[4..8]) >= 0x7fff_ffff - 8
    // Every call gets on, or has a reason not to.
    ensures !result.False? ==> |s.net.received| > |old(s.net.received)|
    ensures s.net.refusals >= old(s.net.refusals) && Faults(s) >= old(Faults(s))
    ensures result.False? ==> NoMore(s, old(s.net.refusals)) || Faults(s) > old(Faults(s))
    ensures if result.True? then exists length :: now == delivered + [Frame(message, length, body)]
            else now == delivered
    ensures old(s.net.received) <= s.net.received
  {
    ghost var q, fault;
    ghost var q0 := s.RecvQueue();
    body := [];
    result, message, q, fault := ReceiveIntMessage(s);
    now := delivered;
    if result.True? {
      body := ConsumeBody(s, q);
      now := delivered + [Frame(message, LengthField(q), body)];
      DeliverOne(old(s.net.received), delivered, q0, q);
    } else {
      Rejoin(EncodeAll(delivered), q0, q);
    }
  }

  /** Consistency says what was delivered: exactly the frames of the bytes received. */
  lemma ConsistentIsParsed(s: CiSocket.Socket, delivered: seq<Frame>)
    requires Consistent(s, delivered)
    ensures Parse(s.net.received) == (delivered, s.RecvQueue())
  {
    ParseEncode(s.net.received, delivered, s.RecvQueue());
  }

  /** No part of a stream of ordinary frames ends in a header with a greater length. */
  lemma OrdinaryIsReceived(stream: seq<Frame>, received: seq<Byte>, delivered: seq<Frame>, q: seq<Byte>)
    requires forall f <- stream :: f.WellFormed() && f.length < 0x7fff_ffff - 8
    requires received <= EncodeAll(stream) && Parse(received) == (delivered, q)
    ensures delivered <= stream && q <= EncodeAll(stream[|delivered|..])
    ensures 8 <= |q| ==> BytesInt32(q[4..8]) < 0x7fff_ffff - 8
  {
    PrefixOfStream(stream, received);
    var rest := stream[|delivered|..];
    if 8 <= |q| {
      var f := rest[0];
      FrameLayout(f);
      IntegersRoundTrip(f.length, 0);
      assert q[4..8] == EncodeAll(rest)[4..8] == Encode(f)[4..8];
      assert f in stream;
    }
  }

  /** The life of one connection: any number of readiness events, any fragmentation, any
      initial capacity. The frames handed over are those of the bytes received. When the peer
      sends frames, exactly those that have fully arrived were handed over, in order; and the
      receiver does not stop for the size of any of them. */
  method ServeConnection(net: Network, capacity: nat, events: nat, ghost stream: seq<Frame>)
    returns (s: CiSocket.Socket, last: Receipt, ghost delivered: seq<Frame>)
    requires capacity <= INT_MAX && net.received == []
    modifies net
    ensures s.net == net && s.Valid()
    ensures Parse(net.received) == (delivered, s.RecvQueue())
    ensures last.Unrepresentable? ==> 8 <= |s.RecvQueue()| && BytesInt32(s.RecvQueue()[4..8]) >= 0x7fff_ffff - 8
    ensures (forall f <- stream :: f.WellFormed()) && net.received <= EncodeAll(stream) ==>
              delivered <= stream && s.RecvQueue() <= EncodeAll(stream[|delivered|..])
    ensures last.Unrepresentable? && net.received <= EncodeAll(stream) ==>
              exists f <- stream :: !f.WellFormed() || f.length >= 0x7fff_ffff - 8
    // Every event before the last one, if it was cut short, has brought something.
    ensures last.True? || last.Interim? ==> |net.received| >= events
    ensures last.False? ==> NoMore(s, old(net.refusals)) || Faults(s) > old(net.failures)
  {
    s := new CiSocket.Socket(net, capacity, capacity);
    delivered, last := [], Interim;
    var i := 0;
    while i < events
      invariant s.net == net && fresh(s) && fresh(s.recvBuffer)
      invariant Consistent(s, delivered) && (last.True? || last.Interim?) && |net.received| >= i
      invariant net.refusals >= old(net.refusals) && Faults(s) >= old(net.failures)
    {
      var message, body;
      last, message, body, delivered := OnReadable(s, delivered);
      i := i + 1;
      if last.False? || last.Unrepresentable? {
        break;
      }
    }
    ParseEncode(net.received, delivered, s.RecvQueue());
    if (forall f <- stream :: f.WellFormed()) && net.received <= EncodeAll(stream) {
      PrefixOfStream(stream, net.received);
      if forall f <- stream :: f.WellFormed() && f.length < 0x7fff_ffff - 8 {
        OrdinaryIsReceived(stream, net.received, delivered, s.RecvQueue());
      }
    }
  }
}
