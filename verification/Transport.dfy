/** The non-blocking network under a socket, as an oracle: every outcome that `recv` and
    `send` may report is possible at every call. */
module Transport {
  import opened Bytes

  datatype RecvResult = Data(bytes: seq<Byte>) | EndOfStream | RecvWouldBlock | RecvFailed
  datatype SendResult = Sent(count: nat) | SendWouldBlock | SendFailed

  class Network {
    ghost var received: seq<Byte>  // every byte `recv` has delivered
    ghost var sent: seq<Byte>      // every byte `send` has accepted
    ghost var attempts: nat        // how often `send` was called
    ghost var refusals: nat        // how often a call would have blocked
    ghost var failures: nat        // how often a call failed
    ghost var refusedInRow: nat    // how many of the latest calls of `send` were refused, up to now
    var peerClosed: bool           // end of stream was reported: it is sticky
    var idleSends: nat             // how often `send` may still report zero bytes

    constructor (idleSends: nat)
      ensures received == [] && sent == [] && attempts == refusals == failures == refusedInRow == 0
      ensures !peerClosed && this.idleSends == idleSends
    {
      received, sent, attempts, refusals, failures, refusedInRow := [], [], 0, 0, 0, 0;
      peerClosed := false;
      this.idleSends := idleSends;
    }

    /** `recv` of at most `n > 0` bytes: any non-empty part of the request, or no data. */
    method Recv(n: nat) returns (r: RecvResult)
      requires 0 < n
      modifies this`received, this`peerClosed, this`refusals, this`failures
      ensures r.Data? ==> !old(peerClosed) && 0 < |r.bytes| <= n
      ensures received == old(received) + (if r.Data? then r.bytes else [])
      ensures peerClosed == (old(peerClosed) || r.EndOfStream?)
      ensures refusals == old(refusals) + if r.RecvWouldBlock? then 1 else 0
      ensures failures == old(failures) + if r.RecvFailed? then 1 else 0
    {
      var outcome: int := *;
      var bytes: seq<Byte> := *;
      if !peerClosed && outcome == 0 && 0 < |bytes| <= n {
        received := received + bytes;
        r := Data(bytes);
      } else if outcome == 1 {
        peerClosed := true;
        r := EndOfStream;
      } else if outcome == 2 {
        refusals := refusals + 1;
        r := RecvWouldBlock;
      } else {
        failures := failures + 1;
        r := RecvFailed;
      }
    }

    /** `send` of `data`: any prefix is accepted, or nothing. Zero bytes are reported only
        finitely often, as a count of zero would otherwise be retried forever. */
    method Send(data: seq<Byte>) returns (r: SendResult)
      requires 0 < |data|
      modifies this`sent, this`attempts, this`refusedInRow, this`idleSends, this`refusals, this`failures
      ensures attempts == old(attempts) + 1
      ensures refusedInRow == if r.SendWouldBlock? then old(refusedInRow) + 1 else 0
      ensures r.Sent? ==> r.count <= |data|
      ensures sent == old(sent) + (if r.Sent? then data[..r.count] else [])
      ensures idleSends == old(idleSends) - (if r == Sent(0) then 1 else 0)
      ensures refusals == old(refusals) + if r.SendWouldBlock? then 1 else 0
      ensures failures == old(failures) + if r.SendFailed? then 1 else 0
    {
      attempts := attempts + 1;
      var outcome: int := *;
      var count: int := *;
      if outcome == 0 && 0 <= count <= |data| && (0 < count || 0 < idleSends) {
        sent := sent + data[..count];
        idleSends := if count == 0 then idleSends - 1 else idleSends;
        refusedInRow := 0;
        r := Sent(count);
      } else if outcome == 1 {
        refusals := refusals + 1;
        refusedInRow := refusedInRow + 1;
        r := SendWouldBlock;
      } else {
        failures := failures + 1;
        refusedInRow := 0;
        r := SendFailed;
      }
    }
  }

  /** `memcpy` into a block. */
  method Copy(dst: array<Byte>, at: nat, src: seq<Byte>)
    requires at + |src| <= dst.Length
    modifies dst
    ensures dst[..] == old(dst[..at]) + src + old(dst[at + |src|..])
  {
    forall i | 0 <= i < |src| {
      dst[at + i] := src[i];
    }
  }

  /** `realloc` to a larger block: it may fail, and says nothing of the added bytes. */
  method Realloc(block: array<Byte>, size: nat) returns (r: array?<Byte>)
    requires block.Length <= size
    ensures r != null ==> fresh(r) && r.Length == size && r[..block.Length] == block[..]
  {
    var exhausted: bool := *;
    if exhausted {
      return null;
    }
    var grown := new Byte[size];
    forall i | 0 <= i < block.Length {
      grown[i] := block[i];
    }
    r := grown;
  }
}
