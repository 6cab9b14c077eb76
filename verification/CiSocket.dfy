/** A socket with its two growable rings. Each ring is a block of bytes, written in place,
    with a start and an end index; `SendQueue` and `RecvQueue` are the bytes it stands for. */
module CiSocket {
  import opened Bytes
  import opened CString
  import opened Ring
  import opened SendStream
  import opened Transport

  /** How a receive loop ends. */
  datatype Ending = Filled | Eof | Blocked | Broken

  /** `realloc` by `need` bytes and, for a wrapped ring, the `memmove` of `need` bytes. */
  method Grow(data: array<Byte>, start: nat, end: nat, need: nat)
    returns (block: array?<Byte>, ghost fill: seq<Byte>)
    requires end < start ==> start + need <= data.Length
    ensures block == null ==> fill == []
    ensures block != null ==> fresh(block) && |fill| == need && block[..] == Regrown(data[..], start, end, fill)
  {
    block := Realloc(data, data.Length + need);
    if block == null {
      return null, [];
    }
    fill := block[data.Length..];
    assert block[..] == data[..] + fill;
    if end < start {
      Copy(block, start + need, block[start..start + need]);
    }
  }

  // ----- 64-bit integers in the memory of a host -----

  function HostBytes64(x: Int64, littleHost: bool): (bytes: seq<Byte>)
    ensures |bytes| == 8
  {
    if littleHost then LittleEndian(Word64(x), 8) else BigEndian(Word64(x), 8)
  }

  function HostInt64(bytes: seq<Byte>, littleHost: bool): Int64
    requires |bytes| == 8
  {
    BytesInt64(if littleHost then Reversed(bytes) else bytes)
  }

  lemma HostInt64IsBytesInt64(bytes: seq<Byte>, littleHost: bool)
    requires |bytes| == 8
    ensures HostInt64(if littleHost then Reversed(bytes) else bytes, littleHost) == BytesInt64(bytes)
  {
    assert Reversed(Reversed(bytes)) == bytes;
  }

  /** The byte-swapping loop of `ReadInt64` and `WriteInt64`. */
  method SwapForHost(bytes: seq<Byte>, littleHost: bool) returns (r: seq<Byte>)
    ensures r == if littleHost then Reversed(bytes) else bytes
  {
    r := bytes;
    if littleHost {
      for i := 0 to |bytes|
        invariant |r| == |bytes|
        invariant forall j :: 0 <= j < i ==> r[j] == bytes[|bytes| - 1 - j]
      {
        r := r[i := bytes[|bytes| - 1 - i]];
      }
      assert r == Reversed(bytes);
    }
  }

  class Socket {
    const net: Network
    var sendBuffer: array<Byte>
    var sendStart: nat
    var sendEnd: nat
    var recvBuffer: array<Byte>
    var recvStart: nat
    var recvEnd: nat
    ghost var shortages: nat  // how often memory for a growth was refused

    ghost predicate Valid()
      reads this
    {
      && sendBuffer != recvBuffer
      && InRange(sendBuffer.Length, sendStart, sendEnd)
      && InRange(recvBuffer.Length, recvStart, recvEnd)
      && sendBuffer.Length <= INT_MAX && recvBuffer.Length <= INT_MAX
    }

    /** The send side as a state of the machine in `SendStream`. */
    ghost function SendState(): (s: State)
      requires Valid()
      reads this, sendBuffer, net`sent
      ensures s.Valid()
    {
      State(sendBuffer[..], sendStart, sendEnd, net.sent)
    }

    ghost function SendQueue(): seq<Byte>
      requires Valid()
      reads this, sendBuffer, net`sent
    {
      SendState().Queue()
    }

    ghost function RecvQueue(): seq<Byte>
      requires Valid()
      reads this, recvBuffer
    {
      Contents(recvBuffer[..], recvStart, recvEnd)
    }

    constructor (net: Network, sendSize: nat, recvSize: nat)
      requires sendSize <= INT_MAX && recvSize <= INT_MAX
      ensures Valid() && this.net == net
      ensures fresh(sendBuffer) && fresh(recvBuffer)
      ensures SendQueue() == [] && RecvQueue() == []
      ensures recvStart == 0 && shortages == 0
    {
      this.net := net;
      sendBuffer := new Byte[sendSize];
      recvBuffer := new Byte[recvSize];
      sendStart, sendEnd, recvStart, recvEnd := 0, 0, 0, 0;
      shortages := 0;
    }

    function GetCurrentRecvDataSize(): (n: nat)
      requires Valid()
      reads this
    {
      Count(recvBuffer.Length, recvStart, recvEnd)
    }

    function GetRemainSendDataSize(): (n: nat)
      requires Valid()
      reads this
    {
      Count(sendBuffer.Length, sendStart, sendEnd)
    }

    // ----- Receive ring -----

    /** Makes room for `n` more bytes. `fill` is what `realloc` left in the added bytes. */
    method PrepareRecvBuffer(n: nat) returns (ok: bool, ghost fill: seq<Byte>)
      requires Valid()
      requires GetCurrentRecvDataSize() + n < INT_MAX
      requires MoveInBounds(recvBuffer.Length, recvStart, recvEnd, n)
      modifies this`recvBuffer, this`recvStart, this`shortages
      ensures Valid()
      ensures recvBuffer == old(recvBuffer) || fresh(recvBuffer)
      ensures ok ==> |fill| == old(GrowBy(recvBuffer.Length, recvStart, recvEnd, n))
      ensures !ok ==> fill == [] && old(GrowBy(recvBuffer.Length, recvStart, recvEnd, n)) > 0
      ensures shortages == old(shortages) + if ok then 0 else 1
      ensures recvBuffer[..] == old(Regrown(recvBuffer[..], recvStart, recvEnd, fill))
      ensures recvStart == RegrownStart(old(recvStart), recvEnd, |fill|)
      ensures RecvQueue() == old(RegrownContents(recvBuffer[..], recvStart, recvEnd, fill))
    {
      var remaining := recvBuffer.Length - GetCurrentRecvDataSize();
      if n < remaining {
        return true, [];
      }
      var need := n - remaining + 1;
      var block;
      block, fill := Grow(recvBuffer, recvStart, recvEnd, need);
      if block == null {
        shortages := shortages + 1;
        return false, [];
      }
      recvBuffer := block;
      if recvEnd < recvStart {
        recvStart := recvStart + need;
      }
      ok := true;
    }

    /** Puts a delivery at the end index and advances it, with the wrap. */
    method Deposit(at: nat, bytes: seq<Byte>)
      requires Valid()
      requires HasRun(recvBuffer.Length, recvStart, recvEnd, |bytes|) && at == recvEnd
      modifies this`recvEnd, recvBuffer
      ensures Valid()
      ensures RecvQueue() == old(RecvQueue()) + bytes
      ensures recvEnd == Advance(recvBuffer.Length, old(recvEnd), |bytes|)
    {
      AppendRun(recvBuffer[..], recvStart, recvEnd, bytes);
      Copy(recvBuffer, at, bytes);
      recvEnd := recvEnd + |bytes|;
      if recvEnd == recvBuffer.Length {
        recvEnd := 0;
      }
    }

    /** One `recv` of at most `n` bytes into the block at `at`. */
    method ReceiveOnce(at: nat, n: nat) returns (r: RecvResult)
      requires Valid() && 0 < n
      requires net.peerClosed || (HasRun(recvBuffer.Length, recvStart, recvEnd, n) && at == recvEnd)
      modifies this`recvEnd, recvBuffer,
               net`received, net`peerClosed, net`refusals, net`failures
      ensures Valid()
      ensures r.Data? ==> !old(net.peerClosed) && 0 < |r.bytes| <= n
      ensures var got := if r.Data? then r.bytes else [];
              && net.received == old(net.received) + got
              && RecvQueue() == old(RecvQueue()) + got
              && recvEnd == Advance(recvBuffer.Length, old(recvEnd), |got|)
      ensures net.peerClosed == (old(net.peerClosed) || r.EndOfStream?)
      ensures net.refusals == old(net.refusals) + if r.RecvWouldBlock? then 1 else 0
      ensures net.failures == old(net.failures) + if r.RecvFailed? then 1 else 0
    {
      r := net.Recv(n);
      if r.Data? {
        Deposit(at, r.bytes);
      }
    }

    /** One turn of the receive loop: what came, and why to stop. */
    method ReceiveNext(at: nat, n: nat) returns (ending: Ending, bytes: seq<Byte>)
      requires Valid() && 0 < n
      requires net.peerClosed || (HasRun(recvBuffer.Length, recvStart, recvEnd, n) && at == recvEnd)
      modifies this`recvEnd, recvBuffer,
               net`received, net`peerClosed, net`refusals, net`failures
      ensures Valid() && (ending.Filled? <==> bytes != []) && |bytes| <= n
      ensures net.received == old(net.received) + bytes && RecvQueue() == old(RecvQueue()) + bytes
      ensures recvEnd == Advance(recvBuffer.Length, old(recvEnd), |bytes|)
      ensures net.peerClosed == (old(net.peerClosed) || ending.Eof?) && (bytes != [] ==> !old(net.peerClosed))
      ensures net.refusals == old(net.refusals) + if ending.Blocked? then 1 else 0
      ensures net.failures == old(net.failures) + if ending.Broken? then 1 else 0
    {
      var r := ReceiveOnce(at, n);
      bytes := if r.Data? then r.bytes else [];
      ending := match r
                case Data(_) => Filled
                case EndOfStream => Eof
                case RecvWouldBlock => Blocked
                case RecvFailed => Broken;
    }

    /** The receive loop over one run of the block: fills `count` bytes at `at`, in as many
        deliveries as the network cares to make. */
    method ReceiveRun(at: nat, count: nat) returns (ending: Ending, ghost got: seq<Byte>)
      requires Valid()
      requires count == 0 || net.peerClosed
               || (HasRun(recvBuffer.Length, recvStart, recvEnd, count) && at == recvEnd)
      modifies this`recvEnd, recvBuffer,
               net`received, net`peerClosed, net`refusals, net`failures
      ensures Valid()
      ensures |got| <= count && net.received == old(net.received) + got
      ensures RecvQueue() == old(RecvQueue()) + got
      ensures recvEnd == Advance(recvBuffer.Length, old(recvEnd), |got|)
      ensures if ending.Filled? then |got| == count else |got| < count
      ensures net.refusals == old(net.refusals) + if ending.Blocked? then 1 else 0
      ensures net.failures == old(net.failures) + if ending.Broken? then 1 else 0
      ensures ending.Eof? ==> net.peerClosed
      ensures old(net.peerClosed) ==> net.peerClosed && got == []
    {
      got, ending := [], Filled;
      var ptr: nat, nleft: nat := at, count;
      ghost var queue, received, from := RecvQueue(), net.received, recvEnd;
      while nleft > 0
        invariant Valid()
        invariant ending == Filled && nleft == count - |got| && net.received == received + got
        invariant RecvQueue() == queue + got && recvEnd == Advance(recvBuffer.Length, from, |got|)
        invariant nleft == 0 || net.peerClosed
                  || (HasRun(recvBuffer.Length, recvStart, recvEnd, nleft) && ptr == recvEnd)
        invariant old(net.peerClosed) ==> net.peerClosed && got == []
        invariant net.refusals == old(net.refusals) && net.failures == old(net.failures)
        decreases nleft
      {
        var bytes;
        ending, bytes := ReceiveNext(ptr, nleft);
        if !ending.Filled? {
          break;
        }
        nleft := nleft - |bytes|;
        ptr := ptr + |bytes|;
        got := got + bytes;
      }
    }

    /** The two receive loops of the sized read: `nleft` bytes at `ptr`, then `nleft2` bytes at
        the front of the block. The second stays short of the start index, so the wrap of the
        end index, which the source leaves out there, does not occur. */
    method ReceiveRuns(ptr: nat, nleft: nat, nleft2: nat) returns (ok: bool, ghost got: seq<Byte>)
      requires Valid() && ptr == recvEnd && HasRun(recvBuffer.Length, recvStart, recvEnd, nleft)
      requires nleft2 > 0 ==> Advance(recvBuffer.Length, recvEnd, nleft) == 0 && nleft2 < recvStart
      modifies this`recvEnd, recvBuffer,
               net`received, net`peerClosed, net`refusals, net`failures
      ensures Valid()
      ensures |got| <= nleft + nleft2 && net.received == old(net.received) + got
      ensures !ok ==> |got| < nleft + nleft2
      ensures net.refusals >= old(net.refusals) && net.failures == old(net.failures) + if ok then 0 else 1
      ensures ok ==> |got| == nleft + nleft2 || net.refusals > old(net.refusals) || net.peerClosed
      ensures RecvQueue() == old(RecvQueue()) + got
    {
      var ending;
      ending, got := ReceiveRun(ptr, nleft);
      if ending.Blocked? || ending.Broken? {
        return ending.Blocked?, got;
      }
      ghost var first := got;
      ending, got := ReceiveRun(0, nleft2);
      got := first + got;
      ok := !ending.Broken?;
    }

    /** The sized read once there is room: one run, or two when the free space wraps. */
    method ReceiveAtMost(n: nat) returns (ok: bool, ghost got: seq<Byte>)
      requires Valid()
      requires GetCurrentRecvDataSize() + n < recvBuffer.Length
      modifies this`recvStart, this`recvEnd, recvBuffer,
               net`received, net`peerClosed, net`refusals, net`failures
      ensures Valid()
      ensures |got| <= n && net.received == old(net.received) + got
      ensures !ok ==> |got| < n
      ensures net.refusals >= old(net.refusals) && net.failures == old(net.failures) + if ok then 0 else 1
      ensures ok ==> |got| == n || net.refusals > old(net.refusals) || net.peerClosed
      ensures RecvQueue() == old(RecvQueue()) + got
      ensures recvStart == if old(recvStart == recvEnd) then 0 else old(recvStart)
    {
      var nleft, nleft2 := 0, 0;
      recvEnd := Advance(recvBuffer.Length, recvEnd, 0);
      var ptr := recvEnd;
      if recvStart < recvEnd {
        nleft := recvBuffer.Length - recvEnd;
        if recvStart == 0 {
          nleft := nleft - 1;
        }
        if nleft > n {
          nleft := n;
        } else {
          nleft2 := n - nleft;
        }
      } else if recvStart > recvEnd {
        nleft := n;
      } else {
        recvStart, recvEnd, ptr := 0, 0, 0;
        nleft := n;
      }
      ok, got := ReceiveRuns(ptr, nleft, nleft2);
    }

    /** Receives at most `n` bytes. `base` is the queue after growth and `got` what arrived:
        whatever becomes of the network, the queue is `base + got`. */
    method ReadFromNetworkToBufferSized(n: nat) returns (ok: bool, ghost base: seq<Byte>, ghost got: seq<Byte>)
      requires Valid()
      requires GetCurrentRecvDataSize() + n < INT_MAX
      requires MoveInBounds(recvBuffer.Length, recvStart, recvEnd, n)
      modifies this`recvBuffer, this`recvStart, this`recvEnd, this`shortages, recvBuffer,
               net`received, net`peerClosed, net`refusals, net`failures
      ensures Valid()
      ensures recvBuffer == old(recvBuffer) || fresh(recvBuffer)
      ensures |got| <= n && net.received == old(net.received) + got
      ensures !ok && 0 < n ==> |got| < n
      ensures net.refusals >= old(net.refusals)
      ensures net.failures + shortages == old(net.failures + shortages) + if ok then 0 else 1
      ensures ok ==> |got| == n || net.refusals > old(net.refusals) || net.peerClosed
      ensures |base| == |old(RecvQueue())| && RecvQueue() == base + got
      ensures old(GrowthSafe(recvBuffer.Length, recvStart, recvEnd, n)) ==> base == old(RecvQueue())
      ensures old(recvStart == 0) ==> recvStart == 0
      ensures old(recvStart == recvEnd) ==> recvStart == 0 || RecvQueue() == []
    {
      var prepared;
      ghost var fill;
      prepared, fill := PrepareRecvBuffer(n);
      if old(GrowthSafe(recvBuffer.Length, recvStart, recvEnd, n)) {
        SafeGrowthKeepsQueue(old(recvBuffer[..]), old(recvStart), recvEnd, fill);
      }
      base, got := RecvQueue(), [];
      if !prepared {
        return false, base, got;
      }
      ok, got := ReceiveAtMost(n);
    }

    /** Receives into the one run of free space at the end index. */
    method ReadFromNetworkToBuffer() returns (ok: bool, ghost got: seq<Byte>)
      requires Valid()
      modifies this`recvStart, this`recvEnd, recvBuffer,
               net`received, net`peerClosed, net`refusals, net`failures
      ensures Valid()
      ensures net.received == old(net.received) + got
      ensures RecvQueue() == old(RecvQueue()) + got
      ensures net.refusals >= old(net.refusals) && net.failures == old(net.failures) + if ok then 0 else 1
      ensures ok ==> |got| == old(FreeRun(recvBuffer.Length, recvStart, recvEnd))
                     || net.refusals > old(net.refusals) || net.peerClosed
      // With nothing refused the run is filled up to the end of the block, and the ring in all other cases.
      ensures ok && net.refusals == old(net.refusals) && !net.peerClosed && recvBuffer.Length > 0 ==>
                if old(0 < recvStart < recvEnd) then recvEnd == 0 else |RecvQueue()| == recvBuffer.Length - 1
    {
      recvEnd := Advance(recvBuffer.Length, recvEnd, 0);
      var ptr := recvEnd;
      var nleft;
      if recvStart < recvEnd {
        nleft := recvBuffer.Length - recvEnd;
        if recvStart == 0 {
          nleft := nleft - 1;
        }
      } else if recvStart > recvEnd {
        nleft := recvStart - recvEnd - 1;
      } else {
        recvStart, recvEnd, ptr := 0, 0, 0;
        nleft := recvBuffer.Length - 1;
      }
      var ending;
      ending, got := ReceiveRun(ptr, if nleft > 0 then nleft else 0);
      ok := !ending.Broken?;
    }

    /** Takes `n` bytes off a wrapped queue, which may end before or after the wrap. */
    method TakeWrapped(n: nat) returns (out: seq<Byte>)
      requires Valid() && recvEnd < recvStart && n <= GetCurrentRecvDataSize()
      modifies this`recvStart
      ensures Valid()
      ensures out == old(RecvQueue())[..n] && RecvQueue() == old(RecvQueue())[n..]
    {
      ghost var q := RecvQueue();
      Window(recvBuffer[..], recvStart, recvEnd, 0, n);
      DropFront(recvBuffer[..], recvStart, recvEnd, n);
      assert q[0..0 + n] == q[..n];
      var right := recvBuffer.Length - recvStart;
      if right >= n {
        out := recvBuffer[recvStart..recvStart + n];
        recvStart := recvStart + n;
        if recvStart == recvBuffer.Length {
          recvStart := 0;
        }
      } else {
        out := recvBuffer[recvStart..] + recvBuffer[..n - right];
        recvStart := n - right;
      }
    }

    /** Removes the first `n` queued bytes and hands them out, or changes nothing. */
    method ReadN(n: nat) returns (ok: bool, out: seq<Byte>)
      requires Valid()
      modifies this`recvStart
      ensures Valid()
      ensures ok == old(RecvQueue() != [] && n <= |RecvQueue()|)
      ensures ok ==> out == old(RecvQueue())[..n] && RecvQueue() == old(RecvQueue())[n..]
      ensures !ok ==> recvStart == old(recvStart)
      ensures old(recvStart <= recvEnd) ==> recvStart <= recvEnd
    {
      if recvEnd > recvStart && recvEnd - recvStart >= n {
        out := recvBuffer[recvStart..recvStart + n];
        recvStart := recvStart + n;
        ok := true;
      } else if recvEnd < recvStart && recvBuffer.Length - (recvStart - recvEnd) >= n {
        out := TakeWrapped(n);
        ok := true;
      } else {
        ok, out := false, [];
      }
    }

    /** `n` queued bytes from offset `off`, leaving the queue alone. */
    method LookAheadN(n: nat, off: nat) returns (ok: bool, out: seq<Byte>)
      requires Valid()
      ensures ok == (RecvQueue() != [] && off + n <= |RecvQueue()|)
      ensures ok ==> out == RecvQueue()[off..off + n]
    {
      if recvEnd > recvStart && recvEnd - recvStart >= off + n {
        Window(recvBuffer[..], recvStart, recvEnd, off, n);
        out := recvBuffer[recvStart + off..recvStart + off + n];
        ok := true;
      } else if recvEnd < recvStart && recvBuffer.Length - (recvStart - recvEnd) >= off + n {
        out := PeekWrapped(n, off);
        ok := true;
      } else {
        ok, out := false, [];
      }
    }

    /** A window of a wrapped queue: right of the start, split over the end of the block, or
        wholly at its front. */
    method PeekWrapped(n: nat, off: nat) returns (out: seq<Byte>)
      requires Valid() && recvEnd < recvStart && off + n <= GetCurrentRecvDataSize()
      ensures out == RecvQueue()[off..off + n]
    {
      Window(recvBuffer[..], recvStart, recvEnd, off, n);
      var right: int := recvBuffer.Length - (recvStart + off);
      if right >= n {
        out := recvBuffer[recvStart + off..recvStart + off + n];
      } else if right > 0 {
        out := recvBuffer[recvStart + off..] + recvBuffer[..n - right];
      } else {
        var at := recvStart + off - recvBuffer.Length;
        out := recvBuffer[at..at + n];
      }
    }

    method LookAheadInt32(off: nat) returns (ok: bool, x: Int32)
      requires Valid()
      ensures ok == (off + 4 <= |RecvQueue()|)
      ensures ok ==> x == BytesInt32(RecvQueue()[off..off + 4])
    {
      var bytes;
      ok, bytes := LookAheadN(4, off);
      x := if ok then BytesInt32(bytes) else 0;
    }

    method ReadInt32() returns (ok: bool, x: Int32)
      requires Valid()
      modifies this`recvStart
      ensures Valid()
      ensures ok == old(4 <= |RecvQueue()|)
      ensures ok ==> x == BytesInt32(old(RecvQueue())[..4]) && RecvQueue() == old(RecvQueue())[4..]
      ensures !ok ==> recvStart == old(recvStart)
      ensures old(recvStart <= recvEnd) ==> recvStart <= recvEnd
    {
      var bytes;
      ok, bytes := ReadN(4);
      x := if ok then BytesInt32(bytes) else 0;
    }

    method ReadInt64(littleHost: bool) returns (ok: bool, x: Int64)
      requires Valid()
      modifies this`recvStart
      ensures Valid()
      ensures ok == old(8 <= |RecvQueue()|)
      ensures ok ==> x == BytesInt64(old(RecvQueue())[..8]) && RecvQueue() == old(RecvQueue())[8..]
      ensures !ok ==> recvStart == old(recvStart)
    {
      var bytes;
      ok, bytes := ReadN(8);
      if !ok {
        return false, 0;
      }
      var native := SwapForHost(bytes, littleHost);
      x := HostInt64(native, littleHost);
      HostInt64IsBytesInt64(bytes, littleHost);
    }

    /** Where `pattern` first occurs in the queue before its first NUL; -1 when it does not,
        when the queue is empty and when there is no pattern. The queue stays as it was. */
    method StrExistInReadBuffer(pattern: Option<seq<Byte>>) returns (offset: int)
      requires Valid()
      modifies recvBuffer
      ensures Valid() && RecvQueue() == old(RecvQueue())
      ensures if pattern.None? || RecvQueue() == [] then offset == -1
              else IsFirst(Text(RecvQueue()), pattern.value, offset)
    {
      if pattern.None? {
        return -1;
      }
      ghost var q := RecvQueue();
      if recvStart < recvEnd {
        recvBuffer[recvEnd] := 0;
        assert recvBuffer[recvStart..] == q + [0] + recvBuffer[recvEnd + 1..];
        TerminatedText(q, recvBuffer[recvEnd + 1..]);
        offset := StrStr(recvBuffer[recvStart..], pattern.value);
      } else if recvStart > recvEnd {
        var copy := recvBuffer[recvStart..] + recvBuffer[..recvEnd] + [0];
        assert copy == q + [0] + [];
        TerminatedText(q, []);
        offset := StrStr(copy, pattern.value);
      } else {
        offset := -1;
      }
    }

    // ----- Send ring -----

    /** Makes room for `n` more bytes, as `PrepareRecvBuffer` does on the other ring. */
    method PrepareSendBuffer(n: nat) returns (ok: bool, ghost fill: seq<Byte>)
      requires Valid()
      requires GetRemainSendDataSize() + n < INT_MAX
      requires MoveInBounds(sendBuffer.Length, sendStart, sendEnd, n)
      modifies this`sendBuffer, this`sendStart, this`shortages
      ensures Valid()
      ensures sendBuffer == old(sendBuffer) || fresh(sendBuffer)
      ensures ok ==> |fill| == old(GrowBy(sendBuffer.Length, sendStart, sendEnd, n))
      ensures !ok ==> fill == [] && old(GrowBy(sendBuffer.Length, sendStart, sendEnd, n)) > 0
      ensures shortages == old(shortages) + if ok then 0 else 1
      ensures SendState() == if ok then Regrow(old(SendState()), fill) else old(SendState())
    {
      var remaining := sendBuffer.Length - GetRemainSendDataSize();
      if n < remaining {
        return true, [];
      }
      var need := n - remaining + 1;
      var block;
      block, fill := Grow(sendBuffer, sendStart, sendEnd, need);
      if block == null {
        shortages := shortages + 1;
        return false, [];
      }
      sendBuffer := block;
      if sendEnd < sendStart {
        sendStart := sendStart + need;
      }
      ok := true;
    }

    /** One copy to the end index, which is advanced with the wrap. */
    method PutRun(src: seq<Byte>)
      requires Valid()
      requires HasRun(sendBuffer.Length, sendStart, sendEnd, |src|)
      modifies this`sendEnd, sendBuffer
      ensures Valid()
      ensures SendState() == Put(old(SendState()), src)
    {
      AppendRun(sendBuffer[..], sendStart, sendEnd, src);
      Copy(sendBuffer, sendEnd, src);
      sendEnd := sendEnd + |src|;
      if sendEnd == sendBuffer.Length {
        sendEnd := 0;
      }
    }

    /** Appends `buf` once there is room, in one copy or two. The source's last branch, which
        reports failure, is never reached. */
    method CopyIn(buf: seq<Byte>)
      requires Valid()
      requires GetRemainSendDataSize() + |buf| < sendBuffer.Length
      requires sendStart == sendEnd ==> sendStart == 0
      modifies this`sendEnd, sendBuffer
      ensures Valid()
      ensures SendState() == PutAll(old(SendState()), buf)
    {
      var n := |buf|;
      if sendStart > sendEnd && sendStart - sendEnd > n {
        PutRun(buf);
      } else if sendStart <= sendEnd && sendBuffer.Length - (sendEnd - sendStart) > n {
        var right := sendBuffer.Length - sendEnd;
        if right >= n {
          PutRun(buf);
        } else {
          PutRun(buf[..right]);
          PutRun(buf[right..]);
        }
      } else {
        assert false;
      }
    }

    method AppendToRing(buf: seq<Byte>)
      requires Valid()
      requires GetRemainSendDataSize() + |buf| < sendBuffer.Length
      modifies this`sendStart, this`sendEnd, sendBuffer
      ensures Valid()
      ensures SendState() == Append(old(SendState()), buf)
    {
      if sendStart == sendEnd {
        sendStart, sendEnd := 0, 0;
      }
      CopyIn(buf);
    }

    /** Queues the whole of `buf`, growing the ring when it must. */
    method WriteNToBuffer(buf: seq<Byte>) returns (ok: bool, ghost fill: seq<Byte>)
      requires Valid()
      requires GetRemainSendDataSize() + |buf| < INT_MAX
      requires MoveInBounds(sendBuffer.Length, sendStart, sendEnd, |buf|)
      modifies this`sendBuffer, this`sendStart, this`sendEnd, this`shortages, sendBuffer
      ensures Valid()
      ensures sendBuffer == old(sendBuffer) || fresh(sendBuffer)
      ensures ok ==> Enabled(old(SendState()), Enqueue(buf, fill))
      ensures SendState() == if ok then Step(old(SendState()), Enqueue(buf, fill)) else old(SendState())
      ensures shortages == old(shortages) + if ok then 0 else 1
    {
      ok, fill := PrepareSendBuffer(|buf|);
      if ok {
        AppendToRing(buf);
      }
    }

    /** Moves the start index past `count` bytes that the network took, with the wrap. */
    method TakeSent(count: nat)
      requires Valid()
      requires count <= GetRemainSendDataSize() && sendStart + count <= sendBuffer.Length
      modifies this`sendStart
      ensures sendStart == Advance(sendBuffer.Length, old(sendStart), count)
    {
      sendStart := sendStart + count;
      if sendStart == sendBuffer.Length {
        sendStart := 0;
      }
    }

    /** Offers `n` bytes from the start index to the network and moves past those it took. */
    method SendRun(n: nat) returns (r: SendResult)
      requires Valid()
      requires 0 < n && sendStart + n <= if sendEnd < sendStart then sendBuffer.Length else sendEnd
      modifies this`sendStart, net`sent, net`attempts, net`refusedInRow, net`idleSends, net`refusals, net`failures
      ensures Valid()
      ensures net.idleSends == old(net.idleSends) - (if r == Sent(0) then 1 else 0)
      ensures r.Sent? ==> r.count <= n
      ensures net.refusals == old(net.refusals) + if r.SendWouldBlock? then 1 else 0
      ensures net.failures == old(net.failures) + if r.SendFailed? then 1 else 0
      ensures SendState() == if r.Sent? then Send(old(SendState()), r.count) else old(SendState())
    {
      Window(sendBuffer[..], sendStart, sendEnd, 0, n);
      var run := sendBuffer[sendStart..sendStart + n];
      r := net.Send(run);
      if r.Sent? {
        assert run[..r.count] == SendQueue()[..r.count];
        AdvanceDrops(State(sendBuffer[..], sendStart, sendEnd, net.sent), r.count);
        TakeSent(r.count);
      }
    }

    /** Offers the first run of the queue to the network until it is gone or refused. It ends at
        the end of the block when the ring is wrapped, and at the end of the queue when not. */
    method WriteFromBufferToNetwork() returns (ok: bool, ghost events: seq<Event>)
      requires Valid()
      modifies this`sendStart, net`sent, net`attempts, net`refusedInRow, net`idleSends, net`refusals, net`failures
      ensures Valid()
      ensures ReachesSafely(old(SendState()), events, SendState(), [])
      ensures GetRemainSendDataSize() <= old(GetRemainSendDataSize())
      ensures old(sendStart) <= sendStart || sendStart == 0
      ensures net.idleSends <= old(net.idleSends) && net.refusals >= old(net.refusals)
      ensures net.failures == old(net.failures) + if ok then 0 else 1
      ensures ok ==> net.refusals > old(net.refusals) || sendStart == if sendEnd < old(sendStart) then 0 else sendEnd
    {
      events := [];
      if GetRemainSendDataSize() == 0 {
        return true, events;
      }
      var nleft := if sendEnd > sendStart then sendEnd - sendStart else sendBuffer.Length - sendStart;
      while nleft > 0
        invariant Valid()
        invariant 0 <= nleft
        invariant nleft > 0 ==> sendStart + nleft == if sendEnd < sendStart then sendBuffer.Length else sendEnd
        invariant GetRemainSendDataSize() <= old(GetRemainSendDataSize())
        invariant old(sendStart) <= sendStart || (sendStart == 0 && nleft == 0)
        invariant ReachesSafely(old(SendState()), events, SendState(), [])
        invariant net.refusals == old(net.refusals) && net.failures == old(net.failures)
        invariant nleft == 0 ==> sendStart == if sendEnd < old(sendStart) then 0 else sendEnd
        invariant net.idleSends <= old(net.idleSends)
        decreases nleft, net.idleSends
      {
        ghost var before := SendState();
        var r := SendRun(nleft);
        match r
        case SendWouldBlock => return true, events;
        case SendFailed => return false, events;
        case Sent(count) =>
          RunThen(old(SendState()), events, before, [], Drain(count));
          events := events + [Drain(count)];
          nleft := nleft - count;
      }
      ok := true;
    }

    /** Queues what the network refused for now: the rest of `buf` from `i`. */
    method QueueRest(buf: seq<Byte>, i: nat, ghost start: State, ghost events: seq<Event>)
      returns (ok: bool, ghost more: seq<Event>)
      requires Valid() && GetRemainSendDataSize() == 0 && |buf| < INT_MAX && i <= |buf|
      requires ReachesSafely(start, events, SendState(), buf[..i])
      modifies this`sendBuffer, this`sendStart, this`sendEnd, this`shortages, sendBuffer
      ensures Valid()
      ensures sendBuffer == old(sendBuffer) || fresh(sendBuffer)
      ensures ReachesSafely(start, more, SendState(), if ok then buf else buf[..i])
      ensures shortages == old(shortages) + if ok then 0 else 1
    {
      ghost var before := SendState();
      ghost var fill;
      ok, fill := WriteNToBuffer(buf[i..]);
      if !ok {
        return false, events;
      }
      assert buf[..i] + buf[i..] == buf;
      RunThenQueue(start, events, before, buf[..i], buf[i..], fill);
      more := events + [Enqueue(buf[i..], fill)];
    }

    /** Sends `buf` past an empty ring; what the network refuses for now is queued. `k` is how
        much of `buf` was taken on. */
    method WriteDirect(buf: seq<Byte>, previous: int)
      returns (ok: bool, nwritten: int, ghost k: nat, ghost events: seq<Event>)
      requires Valid()
      requires GetRemainSendDataSize() == 0 && |buf| < INT_MAX
      modifies this`sendBuffer, this`sendStart, this`sendEnd, this`shortages, sendBuffer,
               net`sent, net`attempts, net`refusedInRow, net`idleSends, net`refusals, net`failures
      ensures Valid()
      ensures sendBuffer == old(sendBuffer) || fresh(sendBuffer)
      ensures k <= |buf| && (ok ==> nwritten == k == |buf|) && (nwritten == k || nwritten == previous)
      ensures ReachesSafely(old(SendState()), events, SendState(), buf[..k])
      ensures net.refusals >= old(net.refusals)
      ensures ok && net.refusals == old(net.refusals) ==> GetRemainSendDataSize() == 0
      // A failure is due to the network, to memory, or to a `send` of nothing.
      ensures !ok ==> net.failures > old(net.failures) || shortages > old(shortages)
                      || net.idleSends < old(net.idleSends)
    {
      nwritten, events := previous, [];
      ghost var start := SendState();
      var i := 0;
      while i < |buf|
        invariant Valid() && sendBuffer == old(sendBuffer) && start == old(SendState())
        invariant GetRemainSendDataSize() == 0
        invariant i <= |buf|
        invariant ReachesSafely(start, events, SendState(), buf[..i])
        invariant net.refusals == old(net.refusals) && net.failures == old(net.failures)
        invariant shortages == old(shortages) && net.idleSends == old(net.idleSends)
        decreases |buf| - i, net.idleSends
      {
        ghost var before := SendState();
        var r := net.Send(buf[i..]);
        match r
        case SendWouldBlock =>
          ok, events := QueueRest(buf, i, start, events);
          return ok, if ok then |buf| else nwritten, if ok then |buf| else i, events;
        case SendFailed =>
          return false, nwritten, i, events;
        case Sent(count) =>
          if count == 0 {
            break;
          }
          RunThenDirect(start, events, before, buf, i, count);
          events := events + [Direct(buf[i..i + count])];
          i := i + count;
      }
      nwritten := i;
      k := i;
      ok := i == |buf|;
    }

    method QueueAll(buf: seq<Byte>) returns (ok: bool, ghost k: nat, ghost events: seq<Event>)
      requires Valid()
      requires GetRemainSendDataSize() + |buf| < INT_MAX
      requires MoveInBounds(sendBuffer.Length, sendStart, sendEnd, |buf|)
      modifies this`sendBuffer, this`sendStart, this`sendEnd, this`shortages, sendBuffer
      ensures Valid()
      ensures sendBuffer == old(sendBuffer) || fresh(sendBuffer)
      ensures k == if ok then |buf| else 0
      ensures Reaches(old(SendState()), events, SendState(), buf[..k])
      ensures old(GrowthSafe(sendBuffer.Length, sendStart, sendEnd, |buf|)) ==> AllSafe(old(SendState()), events)
      ensures shortages == old(shortages) + if ok then 0 else 1
    {
      ghost var before, fill := SendState(), [];
      ok, fill := WriteNToBuffer(buf);
      if ok {
        RunThen(before, [], before, [], Enqueue(buf, fill));
        k, events := |buf|, [] + [Enqueue(buf, fill)];
      } else {
        k, events := 0, [];
      }
    }

    /** Queues `buf` behind what is queued already, or sends it when nothing is. */
    method WriteBehind(buf: seq<Byte>, previous: int)
      returns (ok: bool, nwritten: int, ghost k: nat, ghost events: seq<Event>)
      requires Valid()
      requires GetRemainSendDataSize() + |buf| < INT_MAX
      requires MoveInBounds(sendBuffer.Length, sendStart, sendEnd, |buf|)
      modifies this`sendBuffer, this`sendStart, this`sendEnd, this`shortages, sendBuffer,
               net`sent, net`attempts, net`refusedInRow, net`idleSends, net`refusals, net`failures
      ensures Valid()
      ensures sendBuffer == old(sendBuffer) || fresh(sendBuffer)
      ensures k <= |buf| && (ok ==> nwritten == k == |buf|) && (nwritten == k || nwritten == previous)
      ensures Reaches(old(SendState()), events, SendState(), buf[..k])
      ensures old(GrowthSafe(sendBuffer.Length, sendStart, sendEnd, |buf|)) ==> AllSafe(old(SendState()), events)
      // A failure is due to the network, to memory, or to a `send` of nothing.
      ensures !ok ==> net.failures > old(net.failures) || shortages > old(shortages)
                      || net.idleSends < old(net.idleSends)
      ensures net.refusals >= old(net.refusals)
      ensures ok && net.refusals == old(net.refusals) && old(GetRemainSendDataSize() == 0) ==>
              GetRemainSendDataSize() == 0
    {
      if GetRemainSendDataSize() > 0 {
        ok, k, events := QueueAll(buf);
        nwritten := if ok then |buf| else previous;
      } else {
        ok, nwritten, k, events := WriteDirect(buf, previous);
      }
    }

    /** Flushes what is queued, if anything; growth by `n` stays as safe as it was. */
    method FlushFirst(n: nat) returns (ok: bool, ghost events: seq<Event>)
      requires Valid()
      modifies this`sendStart, net`sent, net`attempts, net`refusedInRow, net`idleSends, net`refusals, net`failures
      ensures Valid()
      ensures ReachesSafely(old(SendState()), events, SendState(), [])
      ensures GetRemainSendDataSize() <= old(GetRemainSendDataSize())
      ensures old(MoveInBounds(sendBuffer.Length, sendStart, sendEnd, n)) ==>
              MoveInBounds(sendBuffer.Length, sendStart, sendEnd, n)
      ensures old(GrowthSafe(sendBuffer.Length, sendStart, sendEnd, n)) ==>
              GrowthSafe(sendBuffer.Length, sendStart, sendEnd, n)
      ensures net.idleSends <= old(net.idleSends) && net.refusals >= old(net.refusals)
      ensures net.failures == old(net.failures) + if ok then 0 else 1
      ensures ok && net.refusals == old(net.refusals) && old(sendStart <= sendEnd) ==> GetRemainSendDataSize() == 0
      ensures ok && net.refusals == old(net.refusals) ==>
              |net.sent| == |old(net.sent)| + old(if sendEnd < sendStart then sendBuffer.Length - sendStart
                                                  else sendEnd - sendStart)
    {
      if GetRemainSendDataSize() > 0 {
        ok, events := WriteFromBufferToNetwork();
        if ok && net.refusals == old(net.refusals) {
          FirstRunIsSent(old(SendState()), events, SendState());
        }
        DrainingKeepsGrowthSafe(sendBuffer.Length, old(sendStart), sendEnd, sendStart, n);
      } else {
        ok, events := true, [];
      }
    }

    /** Sends or queues `buf` behind everything written before. `k` is how much of `buf` was
        taken on: all of it on success, and on failure the part the network already has. The
        call is a run of the machine, and a safe one if growth would be safe at the start. */
    method WriteN(buf: seq<Byte>, previous: int)
      returns (ok: bool, nwritten: int, ghost k: nat, ghost events: seq<Event>)
      requires Valid()
      requires GetRemainSendDataSize() + |buf| < INT_MAX
      requires MoveInBounds(sendBuffer.Length, sendStart, sendEnd, |buf|)
      modifies this`sendBuffer, this`sendStart, this`sendEnd, this`shortages, sendBuffer,
               net`sent, net`attempts, net`refusedInRow, net`idleSends, net`refusals, net`failures
      ensures Valid()
      ensures sendBuffer == old(sendBuffer) || fresh(sendBuffer)
      ensures k <= |buf| && (ok ==> nwritten == k == |buf|) && (nwritten == k || nwritten == previous)
      ensures Reaches(old(SendState()), events, SendState(), buf[..k])
      ensures old(GrowthSafe(sendBuffer.Length, sendStart, sendEnd, |buf|)) ==> AllSafe(old(SendState()), events)
      // A failure is due to the network, to memory, or to a `send` of nothing.
      ensures !ok ==> net.failures > old(net.failures) || shortages > old(shortages)
                      || net.idleSends < old(net.idleSends)
      ensures old(GrowthSafe(sendBuffer.Length, sendStart, sendEnd, |buf|)) ==>
              net.sent + SendQueue() == old(net.sent + SendQueue()) + buf[..k]
      // With nothing refused, nothing stays behind, unless the queue was in two parts; then the first is sent.
      ensures ok && net.refusals == old(net.refusals) && old(sendStart <= sendEnd) ==> GetRemainSendDataSize() == 0
      ensures ok && net.refusals == old(net.refusals) && old(sendEnd < sendStart) ==>
              |net.sent| >= |old(net.sent)| + old(sendBuffer.Length - sendStart)
    {
      ghost var start := SendState();
      var flushed;
      ghost var flush;
      flushed, flush := FlushFirst(|buf|);
      ghost var middle := SendState();
      if !flushed {
        FlushThen(start, flush, middle, [], middle, []);
        return false, previous, 0, flush + [];
      }
      ok, nwritten, k, events := WriteBehind(buf, previous);
      SentGrows(middle, events);
      FlushThen(start, flush, middle, events, SendState(), buf[..k]);
      events := flush + events;
    }

    method WriteInt32(x: Int32) returns (ok: bool, ghost k: nat)
      requires Valid()
      requires GetRemainSendDataSize() + 4 < INT_MAX
      requires MoveInBounds(sendBuffer.Length, sendStart, sendEnd, 4)
      modifies this`sendBuffer, this`sendStart, this`sendEnd, this`shortages, sendBuffer,
               net`sent, net`attempts, net`refusedInRow, net`idleSends, net`refusals, net`failures
      ensures Valid()
      ensures sendBuffer == old(sendBuffer) || fresh(sendBuffer)
      ensures k <= 4 && (ok ==> k == 4)
      ensures old(GrowthSafe(sendBuffer.Length, sendStart, sendEnd, 4)) ==>
              net.sent + SendQueue() == old(net.sent + SendQueue()) + Int32Bytes(x)[..k]
    {
      var nwritten;
      ghost var events;
      ok, nwritten, k, events := WriteN(Int32Bytes(x), 0);
      ok := ok && nwritten == 4;
    }

    /** The wire order is big-endian on either kind of host. */
    method WriteInt64(x: Int64, littleHost: bool) returns (ok: bool, ghost k: nat)
      requires Valid()
      requires GetRemainSendDataSize() + 8 < INT_MAX
      requires MoveInBounds(sendBuffer.Length, sendStart, sendEnd, 8)
      modifies this`sendBuffer, this`sendStart, this`sendEnd, this`shortages, sendBuffer,
               net`sent, net`attempts, net`refusedInRow, net`idleSends, net`refusals, net`failures
      ensures Valid()
      ensures sendBuffer == old(sendBuffer) || fresh(sendBuffer)
      ensures k <= 8 && (ok ==> k == 8)
      ensures old(GrowthSafe(sendBuffer.Length, sendStart, sendEnd, 8)) ==>
              net.sent + SendQueue() == old(net.sent + SendQueue()) + Int64Bytes(x)[..k]
    {
      var wire := SwapForHost(HostBytes64(x, littleHost), littleHost);
      ReversedLittleIsBig(Word64(x), 8);
      var nwritten;
      ghost var events;
      ok, nwritten, k, events := WriteN(wire, 0);
      ok := ok && nwritten == 8;
    }

    /** Writes past the ring, retrying for as long as 3000 refusals in a row allow. It gives up
        after a network error, or when the last 3001 calls of `send`, all its own, were refused;
        and it calls `send` at most 3001 times for each byte, and for each count of zero. */
    method WriteNFlush(buf: seq<Byte>, previous: int) returns (ok: bool, nwritten: int, ghost k: nat)
      modifies net`sent, net`attempts, net`refusedInRow, net`idleSends, net`refusals, net`failures
      ensures k <= |buf| && net.sent == old(net.sent) + buf[..k]
      ensures ok ==> nwritten == k == |buf|
      ensures !ok ==> nwritten == previous && k < |buf|
      ensures !ok ==> net.failures > old(net.failures)
                      || (net.refusedInRow >= 3001 && net.attempts >= old(net.attempts) + 3001)
      ensures net.failures == old(net.failures) + if !ok && net.refusedInRow == 0 then 1 else 0
      ensures net.attempts <= old(net.attempts) + 3001 * (|buf| + old(net.idleSends))
    {
      var i, refusals := 0, 0;
      while i < |buf|
        invariant i <= |buf| && 0 <= refusals <= 3000 && refusals <= net.refusedInRow
        invariant net.failures == old(net.failures) && net.attempts >= old(net.attempts) + refusals
        invariant i == |buf| ==> refusals == 0
        invariant net.sent == old(net.sent) + buf[..i]
        invariant net.attempts + 3001 * (|buf| - i + net.idleSends)
               <= old(net.attempts) + 3001 * (|buf| + old(net.idleSends)) + refusals
        decreases |buf| - i + net.idleSends, 3000 - refusals
      {
        var r := net.Send(buf[i..]);
        match r
        case SendWouldBlock =>
          refusals := refusals + 1;
          if refusals > 3000 {
            return false, previous, i;
          }
        case SendFailed =>
          return false, previous, i;
        case Sent(count) =>
          refusals := 0;
          assert buf[..i] + buf[i..][..count] == buf[..i + count];
          i := i + count;
      }
      return true, i, i;
    }
  }

  // ----- The life of a socket -----

  /** What the owner of a socket does with its send side. */
  datatype SendCall = Write(buf: seq<Byte>) | Flush

  function Flatten(parts: seq<seq<Byte>>): seq<Byte> {
    if parts == [] then [] else Flatten(parts[..|parts| - 1]) + parts[|parts| - 1]
  }

  lemma FlattenSnoc(parts: seq<seq<Byte>>, part: seq<Byte>)
    ensures Flatten(parts + [part]) == Flatten(parts) + part
  {
    assert (parts + [part])[..|parts|] == parts;
  }

  /** A write that can go ahead: its sizes are 32-bit integers and its growth, if any, is safe. */
  predicate CanWrite(size: nat, start: nat, end: nat, c: SendCall)
    requires InRange(size, start, end)
  {
    c.Write? ==> Count(size, start, end) + |c.buf| < INT_MAX && GrowthSafe(size, start, end, |c.buf|)
  }

  /** One call; `taken` is what it took on. */
  method Serve(s: Socket, c: SendCall) returns (ok: bool, ghost taken: seq<Byte>, ghost events: seq<Event>)
    requires s.Valid() && CanWrite(s.sendBuffer.Length, s.sendStart, s.sendEnd, c)
    modifies s`sendBuffer, s`sendStart, s`sendEnd, s`shortages, s.sendBuffer,
             s.net`sent, s.net`attempts, s.net`refusedInRow, s.net`idleSends, s.net`refusals, s.net`failures
    ensures s.Valid() && (s.sendBuffer == old(s.sendBuffer) || fresh(s.sendBuffer))
    ensures ReachesSafely(old(s.SendState()), events, s.SendState(), taken)
    ensures c.Flush? ==> taken == []
    ensures c.Flush? && ok ==> s.net.refusals > old(s.net.refusals)
                               || s.sendStart == if s.sendEnd < old(s.sendStart) then 0 else s.sendEnd
    ensures c.Write? ==> taken <= c.buf && (ok ==> taken == c.buf)
  {
    match c
    case Write(buf) =>
      var nwritten;
      ghost var k;
      SafeMovesInBounds(s.sendBuffer.Length, s.sendStart, s.sendEnd, |buf|);
      ok, nwritten, k, events := s.WriteN(buf, 0);
      taken := buf[..k];
    case Flush =>
      ok, events := s.WriteFromBufferToNetwork();
      taken := [];
  }

  lemma SafeMovesInBounds(size: nat, start: nat, end: nat, n: nat)
    requires InRange(size, start, end) && GrowthSafe(size, start, end, n)
    ensures MoveInBounds(size, start, end, n)
  {
  }

  /** Each call took on what it was asked to write if it succeeded, and a prefix of it if not. */
  predicate EachTakes(calls: seq<SendCall>, results: seq<bool>, taken: seq<seq<Byte>>) {
    && |results| == |taken| <= |calls|
    && forall i :: 0 <= i < |taken| ==>
         (calls[i].Flush? ==> taken[i] == [])
         && (calls[i].Write? ==> taken[i] <= calls[i].buf && (results[i] ==> taken[i] == calls[i].buf))
  }

  lemma EachTakesNext(calls: seq<SendCall>, results: seq<bool>, taken: seq<seq<Byte>>, ok: bool, part: seq<Byte>)
    requires EachTakes(calls, results, taken) && |taken| < |calls|
    requires var c := calls[|taken|];
             (c.Flush? ==> part == []) && (c.Write? ==> part <= c.buf && (ok ==> part == c.buf))
    ensures EachTakes(calls, results + [ok], taken + [part])
  {
  }

  /** One more call after a run that began in `start`. */
  method ServeNext(s: Socket, c: SendCall, ghost start: State, ghost events: seq<Event>, ghost taken: seq<seq<Byte>>)
    returns (ok: bool, ghost part: seq<Byte>, ghost more: seq<Event>)
    requires s.Valid() && CanWrite(s.sendBuffer.Length, s.sendStart, s.sendEnd, c)
    requires ReachesSafely(start, events, s.SendState(), Flatten(taken))
    modifies s`sendBuffer, s`sendStart, s`sendEnd, s`shortages, s.sendBuffer,
             s.net`sent, s.net`attempts, s.net`refusedInRow, s.net`idleSends, s.net`refusals, s.net`failures
    ensures s.Valid() && (s.sendBuffer == old(s.sendBuffer) || fresh(s.sendBuffer))
    ensures ReachesSafely(start, more, s.SendState(), Flatten(taken + [part]))
    ensures (c.Flush? ==> part == []) && (c.Write? ==> part <= c.buf && (ok ==> part == c.buf))
  {
    ghost var before, steps := s.SendState(), [];
    ok, part, steps := Serve(s, c);
    RunConcat(start, events, before, Flatten(taken), steps, s.SendState(), part);
    FlattenSnoc(taken, part);
    more := events + steps;
  }

  /** Any sequence of writes and flushes on a socket, whatever becomes of each: what was sent
      followed by what is queued is what was there before followed by what each call took on, in
      order, which is all it was asked to write if it succeeded and a prefix of it if not. The
      calls stop before the first write that would grow a wrapped ring unsafely or exceed the
      sizes; `done` is how many took place. */
  method ServeAll(s: Socket, calls: seq<SendCall>)
    returns (done: nat, results: seq<bool>, ghost taken: seq<seq<Byte>>)
    requires s.Valid()
    modifies s`sendBuffer, s`sendStart, s`sendEnd, s`shortages, s.sendBuffer,
             s.net`sent, s.net`attempts, s.net`refusedInRow, s.net`idleSends, s.net`refusals, s.net`failures
    ensures s.Valid() && done == |taken| && EachTakes(calls, results, taken)
    ensures done < |calls| ==>
              && calls[done].Write?
              && var n := |calls[done].buf|;
                 || s.GetRemainSendDataSize() + n >= 0x7fff_ffff
                 || (s.sendEnd < s.sendStart && n >= s.sendStart - s.sendEnd
                     && s.sendEnd + n + 1 != s.sendBuffer.Length)
    ensures s.net.sent + s.SendQueue() == old(s.net.sent + s.SendQueue()) + Flatten(taken)
  {
    done, results, taken := 0, [], [];
    ghost var start, events: seq<Event> := s.SendState(), [];
    while done < |calls|
      invariant s.Valid() && done == |taken| && EachTakes(calls, results, taken)
      invariant s.sendBuffer == old(s.sendBuffer) || fresh(s.sendBuffer)
      invariant ReachesSafely(start, events, s.SendState(), Flatten(taken))
    {
      if !CanWrite(s.sendBuffer.Length, s.sendStart, s.sendEnd, calls[done]) {
        break;
      }
      var ok;
      ghost var part;
      ok, part, events := ServeNext(s, calls[done], start, events, taken);
      EachTakesNext(calls, results, taken, ok, part);
      done, results, taken := done + 1, results + [ok], taken + [part];
    }
    if done < |calls| && calls[done].Write? {
      GrowthConditions(s.sendBuffer.Length, s.sendStart, s.sendEnd, |calls[done].buf|);
    }
    RunConserves(start, events);
  }
}
