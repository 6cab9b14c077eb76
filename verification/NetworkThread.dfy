/** The network thread's tables in place: fixed-size arrays and their counts. Every operation
    is tied to an edit of the table values of `PollTables`. */
module NetworkThread {
  import opened Handlers
  import opened PollTables
  import opened TableLaws

  /** `m_iReadSocketCount` and `m_iWriteSocketCount` count these. */
  function NonNull(slots: seq<Ptr>): (n: nat)
    ensures n <= |slots|
    ensures n == |slots| <==> 0 !in slots
  {
    if slots == [] then 0
    else NonNull(slots[..|slots| - 1]) + if slots[|slots| - 1] == 0 then 0 else 1
  }

  lemma {:induction false} NonNullUpdate(slots: seq<Ptr>, i: nat, p: Ptr)
    requires i < |slots|
    ensures NonNull(slots[i := p]) == NonNull(slots) - (if slots[i] == 0 then 0 else 1) + (if p == 0 then 0 else 1)
  {
    var n := |slots| - 1;
    if i < n {
      NonNullUpdate(slots[..n], i, p);
      assert slots[i := p][..n] == slots[..n][i := p];
    } else {
      assert slots[i := p][..n] == slots[..n];
    }
  }

  /** The bits of `events` for each direction. */
  function Bits(readCase: bool): set<Bit> {
    if readCase then READ_BITS else WRITE_BITS
  }

  class Thread {
    const max: nat
    const pollFds: array<PollFd>
    const pollSockets: array<Ptr>
    const readSockets: array<Ptr>
    const writeSockets: array<Ptr>
    var pollCount: nat
    var readCount: int
    var writeCount: int
    var eventsCount: int
    var heap: map<Ptr, Conn>
    var created: nat

    ghost predicate Shaped()
      reads this, pollFds, pollSockets, readSockets, writeSockets
    {
      && pollFds.Length == pollSockets.Length == readSockets.Length == writeSockets.Length == max
      && pollSockets != readSockets && pollSockets != writeSockets && readSockets != writeSockets
      && pollCount <= max
      // Slots at or past the count are blank.
      && (forall i :: pollCount <= i < max ==> pollFds[i] == BLANK && pollSockets[i] == 0)
      && readCount == NonNull(readSockets[..]) && writeCount == NonNull(writeSockets[..])
    }

    function View(): Tables
      requires Shaped()
      reads this, pollFds, pollSockets, readSockets, writeSockets
    {
      Tables(pollFds[..pollCount], pollSockets[..pollCount], readSockets[..], writeSockets[..], heap, created)
    }

    constructor (max: nat)
      ensures this.max == max && eventsCount == 0
      ensures Shaped() && View() == Tables([], [], Free(max), Free(max), map[], 0)
      ensures Ok(View(), max) && WritersOk(View()) && NonNull(View().readers) == 0
      ensures fresh(pollFds) && fresh(pollSockets) && fresh(readSockets) && fresh(writeSockets)
    {
      this.max := max;
      pollFds := new PollFd[max](_ => BLANK);
      pollSockets := new Ptr[max](_ => 0);
      readSockets := new Ptr[max](_ => 0);
      writeSockets := new Ptr[max](_ => 0);
      pollCount, readCount, writeCount, eventsCount, heap := 0, 0, 0, 0, map[];
      created := 0;
      new;
      AllNull(readSockets[..]);
      AllNull(writeSockets[..]);
      assert readSockets[..] == Free(max) && writeSockets[..] == Free(max);
    }

    // ----- The poll table -----

    method PollFDAdd(p: Ptr, readCase: bool) returns (ok: bool)
      requires Shaped() && (p != 0 ==> p in heap)
      modifies this`pollCount, pollFds, pollSockets
      ensures Shaped()
      ensures ok == (p != 0 && heap[p].fd != INVALID && old(pollCount) < max)
      ensures View() == if ok then Add(old(View()), p, heap[p].fd, Bits(readCase))
                        else old(View())
      ensures ok ==> pollSockets[old(pollCount)] == p
      ensures ok ==> pollFds[old(pollCount)]
                     == PollFd(heap[p].fd, if readCase then {In, RdNorm, RdBand, Pri} else {Out, WrNorm, WrBand}, {})
    {
      if p == 0 {
        return false;
      }
      var fd := heap[p].fd;
      if fd == INVALID {
        return false;
      }
      if pollCount >= max {
        return false;
      }
      pollSockets[pollCount] := p;
      pollFds[pollCount] := PollFd(fd, Bits(readCase), {});
      pollCount := pollCount + 1;
      ok := true;
    }

    /** The entry of a socket's descriptor, as an index. */
    method FindPollFD(p: Ptr) returns (entry: int)
      requires Shaped() && (p != 0 ==> p in heap)
      ensures p == 0 || heap[p].fd == INVALID ==> entry == -1
      ensures p != 0 && heap[p].fd != INVALID ==>
              var i := FirstFd(View().fds, heap[p].fd); entry == if i < pollCount then i else -1
    {
      if p == 0 || heap[p].fd == INVALID {
        return -1;
      }
      for i := 0 to pollCount
        invariant forall j :: 0 <= j < i ==> pollFds[j].fd != heap[p].fd
      {
        if pollFds[i].fd == heap[p].fd {
          return i;
        }
      }
      entry := -1;
    }

    /** The last entry takes the place of entry `i`, and its own place is blanked. */
    method RemoveEntry(i: nat)
      requires Shaped() && i < pollCount
      modifies this`pollCount, pollFds, pollSockets
      ensures Shaped()
      ensures View() == old(View()).(fds := SwapRemove(old(View()).fds, i), socks := SwapRemove(old(View()).socks, i))
    {
      var last := pollCount - 1;
      ghost var fds, socks := pollFds[..pollCount], pollSockets[..pollCount];
      if i != last {
        pollFds[i] := pollFds[last];
        pollSockets[i] := pollSockets[last];
      }
      pollFds[last] := BLANK;
      pollSockets[last] := 0;
      pollCount := pollCount - 1;
      assert readSockets[..] == old(readSockets[..]) && writeSockets[..] == old(writeSockets[..]);
      assert pollFds[..pollCount] == SwapRemove(fds, i) && pollSockets[..pollCount] == SwapRemove(socks, i);
    }

    method PollFDDelete(p: Ptr) returns (ok: bool)
      requires Shaped() && (p != 0 ==> p in heap)
      modifies this`pollCount, pollFds, pollSockets
      ensures Shaped()
      ensures p == 0 ==> !ok && View() == old(View())
      ensures p != 0 ==> View() == Delete(old(View()), heap[p].fd)
                         && ok == (heap[p].fd != INVALID && FirstFd(old(View()).fds, heap[p].fd) < old(pollCount))
    {
      var i := FindPollFD(p);
      if i >= 0 {
        RemoveEntry(i);
      }
      ok := i >= 0;
    }

    /** Adds bits to an entry; `entry` is -1 for a null pointer. */
    method PollFDEnable(entry: int, readCase: bool) returns (ok: bool)
      requires Shaped() && -1 <= entry < max
      modifies pollFds
      ensures Shaped() && ok == (0 <= entry < pollCount && old(pollFds[entry].fd) != INVALID)
      ensures View() == if ok then WithEvents(old(View()), entry, old(pollFds[entry].events) + Bits(readCase))
                        else old(View())
      ensures ok ==> pollFds[entry].events == old(pollFds[entry].events)
                     + if readCase then {In, RdNorm, RdBand, Pri} else {Out, WrNorm, WrBand}
    {
      if entry == -1 {
        return false;
      }
      if pollFds[entry].fd == INVALID {
        return false;
      }
      pollFds[entry] := pollFds[entry].(events := pollFds[entry].events + Bits(readCase));
      ok := true;
    }

    method PollFDDisable(entry: int, readCase: bool) returns (ok: bool)
      requires Shaped() && -1 <= entry < max
      modifies pollFds
      ensures Shaped() && ok == (0 <= entry < pollCount && old(pollFds[entry].fd) != INVALID)
      ensures View() == if ok then WithEvents(old(View()), entry, old(pollFds[entry].events) - Bits(readCase))
                        else old(View())
      ensures ok ==> pollFds[entry].events == old(pollFds[entry].events)
                     - if readCase then {In, RdNorm, RdBand, Pri} else {Out, WrNorm, WrBand}
    {
      if entry == -1 {
        return false;
      }
      if pollFds[entry].fd == INVALID {
        return false;
      }
      pollFds[entry] := pollFds[entry].(events := pollFds[entry].events - Bits(readCase));
      ok := true;
    }

    method ClearRevents(i: nat)
      requires Shaped() && i < pollCount
      modifies pollFds
      ensures Shaped() && View() == Cleared(old(View()), i)
    {
      pollFds[i] := pollFds[i].(revents := {});
    }

    // ----- The read and write tables -----

    method FindSlot(slots: array<Ptr>, p: Ptr) returns (i: nat)
      requires slots.Length == max
      ensures i == FirstSlot(slots[..], p)
    {
      i := 0;
      while i < max && slots[i] != p
        invariant i <= max
        invariant forall j :: 0 <= j < i ==> slots[j] != p
      {
        i := i + 1;
      }
    }

    method AddReadSocket(p: Ptr) returns (ok: bool)
      requires Shaped()
      modifies this`readCount, readSockets
      ensures Shaped()
      ensures ok == (p != 0 && 0 in old(View()).readers)
      // With no free slot nothing is filled.
      ensures View() == if p != 0 then old(View()).(readers := Refill(old(View()).readers, 0, p)) else old(View())
    {
      if p == 0 {
        return false;
      }
      var i := FindSlot(readSockets, 0);
      if i < max {
        NonNullUpdate(readSockets[..], i, p);
        readSockets[i] := p;
        assert readSockets[..] == old(readSockets[..])[i := p];
        readCount := readCount + 1;
      }
      ok := i < max;
    }

    /** Removes `p` from the read table, and deletes the socket unless told to preserve it. */
    method DeleteReadSocket(p: Ptr, preserve: bool) returns (ok: bool)
      requires Shaped()
      modifies this`readCount, this`heap, readSockets
      ensures Shaped()
      ensures ok == (p != 0 && p in old(View()).readers)
      ensures View() == if p != 0 then old(View()).(readers := Refill(old(View()).readers, p, 0),
                                                    heap := if preserve || !ok then old(heap) else old(heap) - {p})
                        else old(View())
    {
      if p == 0 {
        return false;
      }
      var i := FindSlot(readSockets, p);
      if i < max {
        if !preserve {
          heap := heap - {p};
        }
        NonNullUpdate(readSockets[..], i, 0);
        readSockets[i] := 0;
        assert readSockets[..] == old(readSockets[..])[i := 0];
        readCount := readCount - 1;
      }
      ok := i < max;
    }

    method AddWriteSocket(p: Ptr) returns (ok: bool)
      requires Shaped()
      modifies this`writeCount, writeSockets
      ensures Shaped()
      ensures ok == (p != 0 && 0 in old(View()).writers)
      ensures View() == if p != 0 then old(View()).(writers := Refill(old(View()).writers, 0, p)) else old(View())
    {
      if p == 0 {
        return false;
      }
      var i := FindSlot(writeSockets, 0);
      if i < max {
        NonNullUpdate(writeSockets[..], i, p);
        writeSockets[i] := p;
        assert writeSockets[..] == old(writeSockets[..])[i := p];
        writeCount := writeCount + 1;
      }
      ok := i < max;
    }

    method DeleteWriteSocket(p: Ptr, preserve: bool) returns (ok: bool)
      requires Shaped()
      modifies this`writeCount, this`heap, writeSockets
      ensures Shaped()
      ensures ok == (p != 0 && p in old(View()).writers)
      ensures View() == if p != 0 then old(View()).(writers := Refill(old(View()).writers, p, 0),
                                                    heap := if preserve || !ok then old(heap) else old(heap) - {p})
                        else old(View())
    {
      if p == 0 {
        return false;
      }
      var i := FindSlot(writeSockets, p);
      if i < max {
        if !preserve {
          heap := heap - {p};
        }
        NonNullUpdate(writeSockets[..], i, 0);
        writeSockets[i] := 0;
        assert writeSockets[..] == old(writeSockets[..])[i := 0];
        writeCount := writeCount - 1;
      }
      ok := i < max;
    }

    /** `FindSocket`: a socket with this descriptor in the read or the write table, or null. */
    method FindSocket(fd: int, readCase: bool) returns (p: Ptr)
      requires Shaped() && forall q <- View().readers + View().writers :: q == 0 || q in heap
      ensures var slots := if readCase then View().readers else View().writers;
              if p == 0 then !Listed(slots, heap, fd) else p in slots && p in heap && heap[p].fd == fd
    {
      var slots := if readCase then readSockets else writeSockets;
      for i := 0 to max
        invariant forall j :: 0 <= j < i ==> slots[j] == 0 || heap[slots[j]].fd != fd
      {
        assert slots[i] in slots[..];
        if slots[i] != 0 && heap[slots[i]].fd == fd {
          return slots[i];
        }
      }
      p := 0;
    }

    /** Takes a socket out of the poll table and disconnects it. */
    method DisableSocket(p: Ptr)
      requires Shaped() && p in heap && p != 0
      modifies this`pollCount, this`heap, pollFds, pollSockets
      ensures Shaped()
      ensures View() == Delete(old(View()), old(heap[p].fd)).(heap := old(heap)[p := old(heap[p]).(fd := INVALID)])
    {
      var found := PollFDDelete(p);
      heap := heap[p := heap[p].(fd := INVALID)];
    }

    /** Takes a socket out of the write and the read table, keeping the object. */
    method LeaveSlots(p: Ptr)
      requires Shaped() && p != 0
      modifies this`readCount, this`writeCount, this`heap, readSockets, writeSockets
      ensures Shaped()
      ensures View() == old(View()).(writers := Refill(old(View()).writers, p, 0),
                                     readers := Refill(old(View()).readers, p, 0))
    {
      var found := DeleteWriteSocket(p, true);
      found := DeleteReadSocket(p, true);
    }

    /** Takes a socket out of every table, closes it and deletes it. */
    method OnReadSocketError(p: Ptr) returns (ok: bool)
      requires Shaped() && (p != 0 ==> p in heap)
      modifies this`pollCount, this`readCount, this`writeCount, this`heap,
               pollFds, pollSockets, readSockets, writeSockets
      ensures Shaped() && ok == (p != 0)
      ensures View() == if p != 0 then Drop(old(View()), p) else old(View())
    {
      if p == 0 {
        return false;
      }
      DisableSocket(p);
      LeaveSlots(p);
      heap := heap - {p};
      assert heap == old(heap) - {p};
      ok := true;
    }

    /** A new socket object. */
    method NewSocket(p: Ptr, fd: int, queued: nat)
      requires Shaped() && IsNew(View(), p, fd)
      modifies this`heap, this`created
      ensures Shaped() && View() == Allocate(old(View()), p, fd, queued)
    {
      heap := heap[p := Conn(fd, queued, created)];
      created := created + 1;
    }

    /** Write interest for a socket whose output is not yet attended to. */
    method CheckWriteOperation(p: Ptr) returns (ok: bool)
      requires Shaped() && Ok(View(), max) && (p != 0 ==> p in heap)
      modifies this`pollCount, this`writeCount, pollFds, pollSockets, writeSockets
      ensures Shaped()
      ensures ok == (p != 0 && heap[p].fd != INVALID
                     && (heap[p].pending > 0 ==> p in old(View()).writers || 0 in old(View()).writers))
      ensures View() == if p != 0 then CheckWrite(old(View()), p, max) else old(View())
    {
      if p == 0 {
        return false;
      }
      if heap[p].fd == INVALID {
        return false;
      }
      ok := true;
      if heap[p].pending > 0 {
        ListedIsMember(View().writers, heap, p);
        var found := FindSocket(heap[p].fd, false);
        if found == 0 {
          PollFor(p, false);
          ok := AddWriteSocket(p);
        }
      }
    }

    /** Read interest for a socket. */
    method AddReadOperation(p: Ptr) returns (ok: bool)
      requires Shaped() && Ok(View(), max) && p in heap
      modifies this`pollCount, this`readCount, pollFds, pollSockets, readSockets
      ensures Shaped()
      ensures ok == (Listed(old(View()).readers, heap, heap[p].fd) || 0 in old(View()).readers)
      ensures View() == AddRead(old(View()), p, max)
    {
      var found := FindSocket(heap[p].fd, true);
      ok := true;
      if found == 0 {
        PollFor(p, true);
        ok := AddReadSocket(p);
      }
    }

    /** Interest in one direction: in the socket's entry, or in a new one if there is room. */
    method PollFor(p: Ptr, readCase: bool)
      requires Shaped() && Ok(View(), max) && p in heap
      modifies this`pollCount, pollFds, pollSockets
      ensures Shaped()
      ensures View() == Interested(old(View()), p, Bits(readCase), max)
    {
      var i := FindPollFD(p);
      var done;
      if i >= 0 {
        assert View().fds[i] == pollFds[i];
        done := PollFDEnable(i, readCase);
      } else {
        done := PollFDAdd(p, readCase);
      }
    }
  }

  lemma {:induction false} AllNull(slots: seq<Ptr>)
    requires forall i :: 0 <= i < |slots| ==> slots[i] == 0
    ensures NonNull(slots) == 0
  {
    if slots != [] {
      AllNull(slots[..|slots| - 1]);
    }
  }
}
