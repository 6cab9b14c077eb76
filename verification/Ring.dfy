/** The geometry of one ring of a socket: a block of bytes with a start and an end index.
    One slot always stays spare, so `start == end` means empty. */
module Ring {
  import opened Bytes

  predicate InRange(size: nat, start: nat, end: nat) {
    start == end == 0 || (start < size && end < size)
  }

  /** The queued bytes, oldest first. */
  function Contents(data: seq<Byte>, start: nat, end: nat): (q: seq<Byte>)
    requires InRange(|data|, start, end)
    ensures |q| == Count(|data|, start, end)
  {
    if start <= end then data[start..end] else data[start..] + data[..end]
  }

  /** `GetCurrentRecvDataSize` and `GetRemainSendDataSize`. */
  function Count(size: nat, start: nat, end: nat): (n: nat)
    requires InRange(size, start, end)
    ensures n == 0 <==> start == end
    ensures n < size || n == size == 0
  {
    if end > start then end - start
    else if end < start then size - (start - end)
    else 0
  }

  function Advance(size: nat, at: nat, k: nat): nat {
    if at + k == size then 0 else at + k
  }

  /** The block after `memcpy(data + at, src, |src|)`. */
  function Splice(data: seq<Byte>, at: nat, src: seq<Byte>): (r: seq<Byte>)
    requires at + |src| <= |data|
    ensures |r| == |data|
  {
    data[..at] + src + data[at + |src|..]
  }

  /** Room for `k` bytes at the end index without crossing the end of the block. */
  predicate HasRun(size: nat, start: nat, end: nat, k: nat) {
    if end < start then end + k < start
    else end + k <= size && (end + k == size ==> 0 < start || size == 0)
  }

  /** The free bytes at the end index up to the end of the block or the spare slot. */
  function FreeRun(size: nat, start: nat, end: nat): (k: nat)
    requires InRange(size, start, end)
  {
    if start < end then size - end - (if start == 0 then 1 else 0)
    else if end < start then start - end - 1
    else if size == 0 then 0 else size - 1
  }

  /** Where the `i`-th queued byte lies in the block. */
  function Slot(size: nat, start: nat, i: nat): nat {
    if start + i < size then start + i else start + i - size
  }

  lemma ContentsAt(data: seq<Byte>, start: nat, end: nat, i: nat)
    requires InRange(|data|, start, end)
    requires i < Count(|data|, start, end)
    ensures Slot(|data|, start, i) < |data|
    ensures Contents(data, start, end)[i] == data[Slot(|data|, start, i)]
  {
  }

  /** Copying bytes to the end index and advancing it appends them to the queue. */
  lemma AppendRun(data: seq<Byte>, start: nat, end: nat, src: seq<Byte>)
    requires InRange(|data|, start, end)
    requires HasRun(|data|, start, end, |src|)
    ensures InRange(|data|, start, Advance(|data|, end, |src|))
    ensures Contents(Splice(data, end, src), start, Advance(|data|, end, |src|))
         == Contents(data, start, end) + src
  {
    var r := Splice(data, end, src);
    var e := Advance(|data|, end, |src|);
    var q := Contents(data, start, end) + src;
    assert |Contents(r, start, e)| == |q|;
    forall i | 0 <= i < |q|
      ensures Contents(r, start, e)[i] == q[i]
    {
      ContentsAt(r, start, e, i);
      if i < |q| - |src| {
        ContentsAt(data, start, end, i);
      }
    }
  }

  /** `n` queued bytes from offset `off`, in the three places the source looks for them. */
  lemma Window(data: seq<Byte>, start: nat, end: nat, off: nat, n: nat)
    requires InRange(|data|, start, end)
    requires off + n <= Count(|data|, start, end)
    ensures var w := Contents(data, start, end)[off..off + n];
            if start + off + n <= |data| then w == data[start + off..start + off + n]
            else if start + off < |data| then w == data[start + off..] + data[..start + off + n - |data|]
            else w == data[start + off - |data|..start + off + n - |data|]
  {
    var w := Contents(data, start, end)[off..off + n];
    forall i | 0 <= i < n
      ensures Slot(|data|, start, off + i) < |data| && w[i] == data[Slot(|data|, start, off + i)]
    {
      ContentsAt(data, start, end, off + i);
    }
  }

  /** Moving the start index past `n` queued bytes, with the wrap, removes exactly the first `n`. */
  lemma DropFront(data: seq<Byte>, start: nat, end: nat, n: nat)
    requires InRange(|data|, start, end)
    requires n <= Count(|data|, start, end)
    ensures var s := if end < start && start + n >= |data| then start + n - |data| else start + n;
            InRange(|data|, s, end) && Contents(data, s, end) == Contents(data, start, end)[n..]
  {
  }

  // ----- Growth -----

  /** `need_size`: how much the block grows so that `n` more bytes leave a slot spare. */
  function GrowBy(size: nat, start: nat, end: nat, n: nat): (need: nat)
    requires InRange(size, start, end)
    ensures n + Count(size, start, end) < size + need
    ensures need > 0 ==> n + Count(size, start, end) + 1 == size + need
  {
    var remaining := size - Count(size, start, end);
    if n < remaining then 0 else n - remaining + 1
  }

  /** The `memmove` of a wrapped growth stays inside the reallocated block. */
  predicate MoveInBounds(size: nat, start: nat, end: nat, n: nat)
    requires InRange(size, start, end)
  {
    end < start ==> start + GrowBy(size, start, end, n) <= size
  }

  /** Nothing to move, or exactly the whole tail of a wrapped ring is moved. */
  predicate GrowthSafe(size: nat, start: nat, end: nat, n: nat)
    requires InRange(size, start, end)
  {
    end < start ==> GrowBy(size, start, end, n) == 0 || start + GrowBy(size, start, end, n) == size
  }

  /** Both conditions depend on the end index alone once the bytes do not fit the gap, so
      draining a ring never makes a growth unsafe. */
  lemma GrowthConditions(size: nat, start: nat, end: nat, n: nat)
    requires InRange(size, start, end)
    ensures MoveInBounds(size, start, end, n) <==> start <= end || n < start - end || end + n < size
    ensures GrowthSafe(size, start, end, n) <==> start <= end || n < start - end || end + n + 1 == size
  {
  }

  lemma DrainingKeepsGrowthSafe(size: nat, start: nat, end: nat, drained: nat, n: nat)
    requires InRange(size, start, end) && InRange(size, drained, end)
    requires start <= drained || drained == 0
    requires Count(size, drained, end) <= Count(size, start, end)
    ensures MoveInBounds(size, start, end, n) ==> MoveInBounds(size, drained, end, n)
    ensures GrowthSafe(size, start, end, n) ==> GrowthSafe(size, drained, end, n)
  {
  }

  /** The block after `realloc` (which leaves `fill` in the added bytes) and, when the ring is
      wrapped, `memmove(block + start + need, block + start, need)` with `need == |fill|`. */
  function Regrown(data: seq<Byte>, start: nat, end: nat, fill: seq<Byte>): (r: seq<Byte>)
    requires end < start ==> start + |fill| <= |data|
    ensures |r| == |data| + |fill|
    ensures fill == [] ==> r == data
  {
    var block := data + fill;
    if end < start then Splice(block, start + |fill|, block[start..start + |fill|]) else block
  }

  function RegrownStart(start: nat, end: nat, need: nat): nat {
    if end < start then start + need else start
  }

  function RegrownContents(data: seq<Byte>, start: nat, end: nat, fill: seq<Byte>): (q: seq<Byte>)
    requires InRange(|data|, start, end)
    requires end < start ==> start + |fill| <= |data|
    ensures |q| == Count(|data|, start, end)
  {
    Contents(Regrown(data, start, end, fill), RegrownStart(start, end, |fill|), end)
  }

  /** Growth keeps the queue whatever `realloc` leaves in the added bytes, exactly when
      nothing is moved or the amount it grows by is the length of the wrapped tail. */
  lemma GrowthKeepsQueueIff(data: seq<Byte>, start: nat, end: nat, n: nat)
    requires InRange(|data|, start, end)
    requires MoveInBounds(|data|, start, end, n)
    ensures GrowthSafe(|data|, start, end, n) <==>
            forall fill: seq<Byte> | |fill| == GrowBy(|data|, start, end, n) ::
              RegrownContents(data, start, end, fill) == Contents(data, start, end)
  {
    var need := GrowBy(|data|, start, end, n);
    if GrowthSafe(|data|, start, end, n) {
      forall fill: seq<Byte> | |fill| == need
        ensures RegrownContents(data, start, end, fill) == Contents(data, start, end)
      {
        SafeGrowthKeepsQueue(data, start, end, fill);
      }
    } else {
      var fill := seq(need, _ => if data[|data| - 1] == 0 then 1 else 0);
      ShortMoveLosesTail(data, start, end, fill);
    }
  }

  /** When less than the tail is moved, the last byte of the tail becomes a byte of `fill`. */
  lemma ShortMoveLosesTail(data: seq<Byte>, start: nat, end: nat, fill: seq<Byte>)
    requires InRange(|data|, start, end)
    requires end < start && 0 < |fill| < |data| - start
    ensures var i := |data| - start - 1;
            RegrownContents(data, start, end, fill)[i] == fill[|fill| - 1]
            && Contents(data, start, end)[i] == data[|data| - 1]
  {
    var i := |data| - start - 1;
    ContentsAt(data, start, end, i);
    ContentsAt(Regrown(data, start, end, fill), start + |fill|, end, i);
  }

  lemma SafeGrowthKeepsQueue(data: seq<Byte>, start: nat, end: nat, fill: seq<Byte>)
    requires InRange(|data|, start, end)
    requires end < start ==> fill == [] || |fill| == |data| - start
    ensures RegrownContents(data, start, end, fill) == Contents(data, start, end)
  {
    if start <= end {
      assert Regrown(data, start, end, fill)[start..end] == data[start..end];
    } else if fill != [] {
      WholeTailMoves(data, start, end, fill);
    }
  }

  lemma WholeTailMoves(data: seq<Byte>, start: nat, end: nat, fill: seq<Byte>)
    requires InRange(|data|, start, end) && end < start && |fill| == |data| - start
    ensures RegrownContents(data, start, end, fill) == Contents(data, start, end)
  {
    var block := data + fill;
    assert block[start..start + |fill|] == data[start..];
    assert Regrown(data, start, end, fill) == data + data[start..];
  }
}
