/** The heartbeat exchange: one request format, one response format, and the two responders,
    which were written independently of each other. */
module Heartbeat {
  import opened Bytes
  import opened Transport

  const HEARTBEAT_REQUEST: Int32 := 0
  const HEARTBEAT_RESPONSE: Int32 := 1

  datatype ProcessState = Alive | SwError | HwError {
    function Code(): Int32 {
      match this
      case Alive => 0
      case SwError => 1
      case HwError => 2
    }
  }

  datatype Response = Response(seqNum: Int32, representativeIP: seq<Byte>, state: ProcessState, localIP: seq<Byte>) {
    /** The lengths, and the size of the datagram, are 32-bit integers. */
    predicate FitsInt() {
      20 + |representativeIP| + |localIP| <= INT_MAX
    }
  }

  // ----- The wire format -----

  function Wire(r: Response): (bytes: seq<Byte>)
    requires r.FitsInt()
    ensures |bytes| == 20 + |r.representativeIP| + |r.localIP|
  {
    Int32Bytes(HEARTBEAT_RESPONSE) + Int32Bytes(r.seqNum)
    + Int32Bytes(|r.representativeIP|) + r.representativeIP
    + Int32Bytes(r.state.Code())
    + Int32Bytes(|r.localIP|) + r.localIP
  }

  /** Four bytes at `at` as an integer. */
  function IntAt(bytes: seq<Byte>, at: nat): Int32
    requires at + 4 <= |bytes|
  {
    BytesInt32(bytes[at..at + 4])
  }

  /** Reads a response by following its length fields; nothing may be left over. */
  function Decode(bytes: seq<Byte>): Option<Response> {
    if |bytes| < 20 || |bytes| > INT_MAX || IntAt(bytes, 0) != HEARTBEAT_RESPONSE then None
    else
      var n := IntAt(bytes, 8);
      if n < 0 || |bytes| < 20 + n then None
      else
        var code, m := IntAt(bytes, 12 + n), IntAt(bytes, 16 + n);
        if m < 0 || |bytes| != 20 + n + m || code < 0 || code > 2 then None
        else
          var state := if code == 0 then Alive else if code == 1 then SwError else HwError;
          Some(Response(IntAt(bytes, 4), bytes[12..12 + n], state, bytes[20 + n..]))
  }

  /** Every field of a response is recovered from its datagram. */
  lemma DecodeWire(r: Response)
    requires r.FitsInt()
    ensures Decode(Wire(r)) == Some(r)
  {
    var bytes := Wire(r);
    var n := |r.representativeIP|;
    IntegersRoundTrip(HEARTBEAT_RESPONSE, 0);
    IntegersRoundTrip(r.seqNum, 0);
    IntegersRoundTrip(n, 0);
    IntegersRoundTrip(r.state.Code(), 0);
    IntegersRoundTrip(|r.localIP|, 0);
    WireFields(r);
  }

  lemma WireFields(r: Response)
    requires r.FitsInt()
    ensures var bytes, n := Wire(r), |r.representativeIP|;
            && bytes[0..4] == Int32Bytes(HEARTBEAT_RESPONSE)
            && bytes[4..8] == Int32Bytes(r.seqNum)
            && bytes[8..12] == Int32Bytes(n)
            && bytes[12..12 + n] == r.representativeIP
            && bytes[12 + n..16 + n] == Int32Bytes(r.state.Code())
            && bytes[16 + n..20 + n] == Int32Bytes(|r.localIP|)
            && bytes[20 + n..] == r.localIP
  {
  }

  /** Byte by byte: type 1, sequence number, representative address with its length in front,
      state 0, 1 or 2, local address with its length in front. */
  lemma WireLayout(r: Response)
    requires r.FitsInt()
    ensures var bytes, n := Wire(r), |r.representativeIP|;
            && |bytes| == 20 + n + |r.localIP|
            && bytes[0..4] == [0, 0, 0, 1]
            && bytes[4..8] == Int32Bytes(r.seqNum)
            && bytes[8..12] == Int32Bytes(n) && bytes[12..12 + n] == r.representativeIP
            && bytes[12 + n..16 + n]
               == [0, 0, 0, match r.state case Alive => 0 case SwError => 1 case HwError => 2]
            && bytes[16 + n..20 + n] == Int32Bytes(|r.localIP|) && bytes[20 + n..] == r.localIP
  {
    WireFields(r);
    Int32OnTheWire(1);
    Int32OnTheWire(r.state.Code());
  }

  /** Only the datagram of a response decodes to it. */
  lemma WireDecode(bytes: seq<Byte>)
    requires Decode(bytes).Some?
    ensures Decode(bytes).value.FitsInt() && Wire(Decode(bytes).value) == bytes
  {
    var r := Decode(bytes).value;
    var n := |r.representativeIP|;
    BytesRoundTrip(bytes[0..4]);
    BytesRoundTrip(bytes[4..8]);
    BytesRoundTrip(bytes[8..12]);
    BytesRoundTrip(bytes[12 + n..16 + n]);
    BytesRoundTrip(bytes[16 + n..20 + n]);
    Pieces(bytes, n);
  }

  lemma Pieces(bytes: seq<Byte>, n: nat)
    requires 20 + n <= |bytes|
    ensures bytes[0..4] + bytes[4..8] + bytes[8..12] + bytes[12..12 + n]
            + bytes[12 + n..16 + n] + bytes[16 + n..20 + n] + bytes[20 + n..] == bytes
  {
    assert bytes[0..4] + bytes[4..8] == bytes[..8];
    assert bytes[..8] + bytes[8..12] == bytes[..12];
    assert bytes[..12] + bytes[12..12 + n] == bytes[..12 + n];
    assert bytes[..12 + n] + bytes[12 + n..16 + n] == bytes[..16 + n];
    assert bytes[..16 + n] + bytes[16 + n..20 + n] == bytes[..20 + n];
  }

  // ----- Requests -----

  function RequestBytes(seqNum: Int32): (bytes: seq<Byte>) {
    Int32Bytes(HEARTBEAT_REQUEST) + Int32Bytes(seqNum)
  }

  /** The sequence number the legacy responder answers with; it insists on eight bytes, and
      a longer datagram is cut by `recvfrom`. */
  function LegacyAnswer(datagram: seq<Byte>): (seqNum: Option<Int32>) {
    if 8 <= |datagram| && IntAt(datagram, 0) == HEARTBEAT_REQUEST then Some(IntAt(datagram, 4)) else None
  }

  function ZeroPadded(bytes: seq<Byte>): (r: seq<Byte>)
    ensures |r| == 4
  {
    seq(4, i requires 0 <= i => if i < |bytes| then bytes[i] else 0)
  }

  /** The sequence number the asio responder answers with; what a short datagram lacks stays
      zero. */
  function AsioAnswer(datagram: seq<Byte>): (seqNum: Option<Int32>) {
    var later := if |datagram| < 4 then [] else datagram[4..];
    if BytesInt32(ZeroPadded(datagram)) == HEARTBEAT_REQUEST then Some(BytesInt32(ZeroPadded(later))) else None
  }

  /** A request is four zero bytes and a sequence number. */
  lemma RequestLayout(seqNum: Int32)
    ensures RequestBytes(seqNum) == [0, 0, 0, 0] + Int32Bytes(seqNum)
  {
    Int32OnTheWire(0);
  }

  /** Both responders answer every well-formed request with its own sequence number. */
  lemma RequestsAreAnswered(seqNum: Int32)
    ensures LegacyAnswer(RequestBytes(seqNum)) == Some(seqNum)
    ensures AsioAnswer(RequestBytes(seqNum)) == Some(seqNum)
  {
    IntegersRoundTrip(HEARTBEAT_REQUEST, 0);
    IntegersRoundTrip(seqNum, 0);
    var d := RequestBytes(seqNum);
    assert d[0..4] == Int32Bytes(HEARTBEAT_REQUEST) == ZeroPadded(d);
    assert d[4..8] == Int32Bytes(seqNum) == ZeroPadded(d[4..]);
  }

  /** And nothing else: the legacy responder wants eight bytes of which the first four are zero; for
      the asio responder those of the first four that are there must be, and what is missing of the
      sequence number counts as zero. */
  lemma OnlyRequestsAreAnswered(datagram: seq<Byte>)
    ensures LegacyAnswer(datagram)
         == if 8 <= |datagram| && datagram[..4] == [0, 0, 0, 0] then Some(BytesInt32(datagram[4..8])) else None
    ensures AsioAnswer(datagram).Some? <==> forall i :: 0 <= i < |datagram| && i < 4 ==> datagram[i] == 0
    ensures AsioAnswer(datagram).Some? ==>
              exists four: seq<Byte> :: |four| == 4 && AsioAnswer(datagram).value == BytesInt32(four)
                && forall i :: 0 <= i < 4 ==> four[i] == if 4 + i < |datagram| then datagram[4 + i] else 0
  {
    var head := ZeroPadded(datagram);
    BytesRoundTrip(head);
    IntegersRoundTrip(0, 0);
    ZeroIsZeros();
    if 8 <= |datagram| {
      assert datagram[0..4] == datagram[..4];
      BytesRoundTrip(datagram[..4]);
    }
    if head != [0, 0, 0, 0] {
      var i :| 0 <= i < 4 && head[i] != 0;
      assert i < |datagram| && datagram[i] != 0;
    } else {
      forall i | 0 <= i < |datagram| && i < 4
        ensures datagram[i] == 0
      {
        assert head[i] == 0;
      }
    }
    var later := if |datagram| < 4 then [] else datagram[4..];
    assert forall i :: 0 <= i < 4 ==> ZeroPadded(later)[i] == if 4 + i < |datagram| then datagram[4 + i] else 0;
  }

  /** The responders agree on a datagram exactly when it has eight bytes or a non-zero byte
      among its first four: a short datagram that starts with zeros is answered by one only. */
  lemma AnswersAgreeIff(datagram: seq<Byte>)
    ensures LegacyAnswer(datagram) == AsioAnswer(datagram)
       <==> 8 <= |datagram| || exists i :: 0 <= i < |datagram| && i < 4 && datagram[i] != 0
  {
    var head := ZeroPadded(datagram);
    if 8 <= |datagram| {
      assert head == datagram[0..4];
      assert ZeroPadded(datagram[4..]) == datagram[4..8];
    } else {
      BytesRoundTrip(head);
      IntegersRoundTrip(0, 0);
      ZeroIsZeros();
      if head != [0, 0, 0, 0] {
        var i :| 0 <= i < 4 && head[i] != 0;
        assert i < |datagram| && datagram[i] != 0;
      } else {
        forall i | 0 <= i < |datagram| && i < 4
          ensures datagram[i] == 0
        {
          assert head[i] == 0;
        }
      }
    }
  }

  lemma ZeroIsZeros()
    ensures Int32Bytes(0) == [0, 0, 0, 0]
  {
    assert BigEndian(0, 1) == [0] && BigEndian(0, 2) == [0, 0];
    assert BigEndian(0, 3) == [0, 0, 0];
  }

  // ----- The legacy responder -----

  /** `memcpy` at a moving cursor. */
  method PutAt(buffer: array<Byte>, p: nat, src: seq<Byte>) returns (next: nat)
    requires p + |src| <= buffer.Length
    modifies buffer
    ensures next == p + |src| && buffer[..next] == old(buffer[..p]) + src
  {
    Copy(buffer, p, src);
    next := p + |src|;
  }

  class LegacyResponser {
    var representativeIP: seq<Byte>
    var localIP: seq<Byte>
    var processState: ProcessState
    const recvBuf: array<Byte>

    constructor (representativeIP: seq<Byte>, localIP: seq<Byte>)
      ensures processState == Alive && recvBuf.Length == 1350
      ensures this.representativeIP == representativeIP && this.localIP == localIP
      ensures fresh(recvBuf)
    {
      this.representativeIP, this.localIP := representativeIP, localIP;
      processState := Alive;
      recvBuf := new Byte[1350];
    }

    ghost function Answer(seqNum: Int32): Response
      reads this
    {
      Response(seqNum, representativeIP, processState, localIP)
    }

    /** The first half of the message: type, sequence number, representative address. */
    method PutHead(msg: array<Byte>, seqNum: Int32) returns (p: nat)
      requires |representativeIP| <= INT_MAX && 12 + |representativeIP| <= msg.Length
      modifies msg
      ensures p == 12 + |representativeIP|
      ensures msg[..p] == Int32Bytes(HEARTBEAT_RESPONSE) + Int32Bytes(seqNum)
                          + Int32Bytes(|representativeIP|) + representativeIP
    {
      p := PutAt(msg, 0, Int32Bytes(HEARTBEAT_RESPONSE));
      p := PutAt(msg, p, Int32Bytes(seqNum));
      p := PutAt(msg, p, Int32Bytes(|representativeIP|));
      p := PutAt(msg, p, representativeIP);
    }

    /** Builds the datagram with a moving cursor and hands it to `sendto`, which reports
        `nSend`. The cursor ends exactly at the end of the buffer. */
    method SendHeartbeatResponse(seqNum: Int32, nSend: int) returns (ok: bool, datagram: seq<Byte>)
      requires Answer(seqNum).FitsInt()
      ensures datagram == Wire(Answer(seqNum))
      ensures ok == (nSend == |datagram|)
    {
      var size := 4 + 4 + 4 + |representativeIP| + 4 + 4 + |localIP|;
      var msg := new Byte[size];
      var p := PutHead(msg, seqNum);
      p := PutAt(msg, p, Int32Bytes(processState.Code()));
      p := PutAt(msg, p, Int32Bytes(|localIP|));
      p := PutAt(msg, p, localIP);
      assert p == size;
      datagram := msg[..];
      if nSend < 0 {
        return false, datagram;
      }
      if nSend != size {
        return false, datagram;
      }
      ok := true;
    }

    /** `recvfrom` of at most eight bytes; `error` when it fails. */
    method ReceiveIntMessage(datagram: seq<Byte>, error: bool) returns (ok: bool, message: Int32)
      requires 8 <= recvBuf.Length
      modifies recvBuf
      ensures ok == (!error && 8 <= |datagram|)
      ensures ok ==> recvBuf[..8] == datagram[..8] && message == IntAt(datagram, 0)
    {
      if error {
        return false, 0;
      }
      var nRead := if |datagram| < 8 then |datagram| else 8;
      Copy(recvBuf, 0, datagram[..nRead]);
      if nRead != 8 {
        return false, 0;
      }
      assert recvBuf[..8] == datagram[..8];
      assert recvBuf[0..4] == datagram[0..4];
      message := BytesInt32(recvBuf[0..4]);
      ok := true;
    }

    method OnMessage(message: Int32, nSend: int) returns (ok: bool, reply: Option<seq<Byte>>)
      requires 8 <= recvBuf.Length
      requires Answer(0).FitsInt()
      ensures ok == (message == HEARTBEAT_REQUEST)
      ensures reply == if ok then Some(Wire(Answer(BytesInt32(recvBuf[4..8])))) else None
    {
      if message != HEARTBEAT_REQUEST {
        return false, None;
      }
      var sent, datagram := SendHeartbeatResponse(BytesInt32(recvBuf[4..8]), nSend);
      return true, Some(datagram);
    }

    /** One readable event of the responder's socket. */
    method Serve(datagram: seq<Byte>, error: bool, nSend: int) returns (reply: Option<seq<Byte>>)
      requires 8 <= recvBuf.Length
      requires Answer(0).FitsInt()
      modifies recvBuf
      ensures reply == if error || LegacyAnswer(datagram).None? then None
                       else Some(Wire(Answer(LegacyAnswer(datagram).value)))
    {
      var received, message := ReceiveIntMessage(datagram, error);
      if !received {
        return None;
      }
      assert recvBuf[4..8] == datagram[4..8];
      var ok;
      ok, reply := OnMessage(message, nSend);
    }
  }

  // ----- The asio responder -----

  /** An input stream over a received datagram: reading past the end fills what it can, and
      after that every read fails. */
  class InputStream {
    var rest: seq<Byte>
    var failed: bool

    constructor (bytes: seq<Byte>)
      ensures rest == bytes && !failed
    {
      rest, failed := bytes, false;
    }

    /** Reads into the four bytes of an integer that was zero. */
    method ReadInt() returns (x: Int32)
      modifies this
      ensures x == BytesInt32(ZeroPadded(if old(failed) then [] else old(rest)))
      ensures failed == (old(failed) || |old(rest)| < 4)
      ensures !failed ==> rest == old(rest)[4..]
    {
      var temp: seq<Byte> := [0, 0, 0, 0];
      if failed {
        assert ZeroPadded([]) == temp;
      } else {
        var n := if |rest| < 4 then |rest| else 4;
        temp := rest[..n] + temp[n..];
        assert ZeroPadded(rest) == temp;
        failed := n < 4;
        rest := rest[n..];
      }
      x := BytesInt32(temp);
    }
  }

  class HeartBeatSession {
    var representativeIP: seq<Byte>
    var localIP: seq<Byte>
    var processState: ProcessState

    constructor (representativeIP: seq<Byte>, localIP: seq<Byte>)
      ensures processState == Alive
      ensures this.representativeIP == representativeIP && this.localIP == localIP
    {
      this.representativeIP, this.localIP := representativeIP, localIP;
      processState := Alive;
    }

    ghost function Answer(seqNum: Int32): Response
      reads this
    {
      Response(seqNum, representativeIP, processState, localIP)
    }

    /** Writes the fields one after the other to a stream, through a reused integer. */
    method WriteResponse(seqNum: Int32) returns (response: seq<Byte>)
      requires Answer(seqNum).FitsInt()
      ensures response == Wire(Answer(seqNum))
    {
      var temp := Int32Bytes(HEARTBEAT_RESPONSE);
      response := temp;
      temp := Int32Bytes(seqNum);
      response := response + temp;
      temp := Int32Bytes(|representativeIP|);
      response := response + temp;
      response := response + representativeIP;
      temp := Int32Bytes(processState.Code());
      response := response + temp;
      temp := Int32Bytes(|localIP|);
      response := response + temp;
      response := response + localIP;
    }

    method HandleReadRequest(datagram: seq<Byte>, error: bool) returns (reply: Option<seq<Byte>>)
      requires Answer(0).FitsInt()
      ensures reply == if error || AsioAnswer(datagram).None? then None
                       else Some(Wire(Answer(AsioAnswer(datagram).value)))
    {
      if error {
        return None;
      }
      var request := datagram[..if |datagram| < 8 then |datagram| else 8];
      var input := new InputStream(request);
      var message := input.ReadInt();
      var seqNum := input.ReadInt();
      assert ZeroPadded(request) == ZeroPadded(datagram);
      if message != HEARTBEAT_REQUEST {
        return None;
      }
      var later := if |datagram| < 4 then [] else datagram[4..];
      assert ZeroPadded(if |request| < 4 then [] else request[4..]) == ZeroPadded(later);
      var response := WriteResponse(seqNum);
      reply := Some(response);
    }
  }

  /** Configured alike, the two responders put the same datagram on the wire for every
      request of eight bytes or more, and its fields are those of the request and of the
      process. */
  method SameReply(legacy: LegacyResponser, session: HeartBeatSession, datagram: seq<Byte>)
    returns (a: Option<seq<Byte>>, b: Option<seq<Byte>>)
    requires 8 <= legacy.recvBuf.Length && 8 <= |datagram|
    requires legacy.Answer(0) == session.Answer(0) && session.Answer(0).FitsInt()
    modifies legacy.recvBuf
    ensures a == b
    ensures a.Some? <==> LegacyAnswer(datagram).Some?
    ensures a.Some? ==> Decode(a.value) == Some(session.Answer(LegacyAnswer(datagram).value))
  {
    a := legacy.Serve(datagram, false, 0);
    b := session.HandleReadRequest(datagram, false);
    AnswersAgreeIff(datagram);
    if a.Some? {
      DecodeWire(session.Answer(LegacyAnswer(datagram).value));
    }
  }
}
