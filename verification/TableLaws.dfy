/** What each edit of the network thread's tables keeps. */
module TableLaws {
  import opened PollTables

  // ----- Free slots -----

  function Members(slots: seq<Ptr>): set<Ptr> {
    set p | p in slots
  }

  lemma {:induction false} CardOfSlots(slots: seq<Ptr>)
    requires forall i, j :: 0 <= i < j < |slots| ==> slots[i] != slots[j]
    ensures |Members(slots)| == |slots|
  {
    if slots != [] {
      var n := |slots| - 1;
      CardOfSlots(slots[..n]);
      assert Members(slots) == Members(slots[..n]) + {slots[n]};
    }
  }

  lemma SubsetCard<T>(a: set<T>, b: set<T>)
    requires a <= b
    ensures |a| <= |b|
  {
    assert b == a + (b - a);
  }

  /** As many slots as the poll table has room for, and polled sockets in them: one is free if
      there is room in the poll table, or a polled socket that is not in them. */
  lemma FreeSlot(slots: seq<Ptr>, t: Tables, max: nat, p: Ptr)
    requires PollOk(t) && SlotsOk(slots, t.heap) && |slots| == max && forall q <- slots :: q == 0 || q in t.socks
    requires |t.socks| < max || (|t.socks| == max && p in t.socks && p !in slots)
    ensures 0 in slots
  {
    if 0 !in slots {
      CardOfSlots(slots);
      CardOfSlots(t.socks);
      if |t.socks| < max {
        SubsetCard(Members(slots), Members(t.socks));
      } else {
        assert p !in Members(slots);
        SubsetCard(Members(slots) + {p}, Members(t.socks));
      }
      assert false;
    }
  }

  /** A polled socket that is not among the writers always finds a free slot there. */
  lemma FreeWriterSlot(t: Tables, p: Ptr, max: nat)
    requires Ok(t, max) && WritersOk(t) && p in t.socks && p !in t.writers
    ensures 0 in t.writers
  {
    FreeSlot(t.writers, t, max, p);
  }

  /** So does any socket as long as the poll table has room. */
  lemma FreeSlotBelow(t: Tables, max: nat)
    requires Ok(t, max) && WritersOk(t) && |t.socks| < max
    ensures 0 in t.writers
  {
    FreeSlot(t.writers, t, max, 0);
  }

  /** Exchanging one value for another in the first slot that holds it. */
  lemma RefillIs(slots: seq<Ptr>, was: Ptr, p: Ptr)
    requires was != p
    ensures var r, i := Refill(slots, was, p), FirstSlot(slots, was);
            && (i < |slots| <==> was in slots)
            && (forall j :: 0 <= j < |slots| ==> r[j] == if j == i then p else slots[j])
  {
  }

  /** Filling a free slot with a new pointer. */
  lemma FillKeepsSlots(slots: seq<Ptr>, p: Ptr, heap: map<Ptr, Conn>)
    requires SlotsOk(slots, heap) && p in heap && p != 0 && p !in slots
    ensures SlotsOk(Refill(slots, 0, p), heap)
    ensures forall q :: q != 0 ==> (q in Refill(slots, 0, p) <==> q in slots || (q == p && 0 in slots))
  {
    RefillIs(slots, 0, p);
    var r, i := Refill(slots, 0, p), FirstSlot(slots, 0);
    forall q | q != 0
      ensures q in r <==> q in slots || (q == p && 0 in slots)
    {
      if q in slots {
        var j :| 0 <= j < |slots| && slots[j] == q;
        assert r[j] == q;
      }
      if 0 in slots {
        assert r[i] == p;
      }
    }
  }

  /** Freeing the slot of a pointer leaves no other slot with it. */
  lemma FreeKeepsSlots(slots: seq<Ptr>, p: Ptr, heap: map<Ptr, Conn>)
    requires SlotsOk(slots, heap) && p != 0
    ensures SlotsOk(Refill(slots, p, 0), heap) && SlotsOk(Refill(slots, p, 0), heap - {p})
    ensures forall q :: q != 0 ==> (q in Refill(slots, p, 0) <==> q in slots && q != p)
  {
    RefillIs(slots, p, 0);
    var r := Refill(slots, p, 0);
    forall q | q != 0
      ensures q in r <==> q in slots && q != p
    {
      if q in slots && q != p {
        var j :| 0 <= j < |slots| && slots[j] == q;
        assert r[j] == q;
      }
    }
  }

  // ----- Leaving the tables -----

  lemma SwapRemoveMembers(s: seq<Ptr>, i: nat)
    requires i < |s| && forall j, k :: 0 <= j < k < |s| ==> s[j] != s[k]
    ensures forall q :: q in SwapRemove(s, i) <==> q in s && q != s[i]
  {
    var r := SwapRemove(s, i);
    SwapRemoveIs(s, i);
    forall q | q in s && q != s[i]
      ensures q in r
    {
      var j :| 0 <= j < |s| && s[j] == q;
      assert r[if j == |s| - 1 then i else j] == q;
    }
  }

  lemma DeleteIsSwapRemove(t: Tables, q: Ptr)
    requires PollOk(t) && HeapOk(t.heap) && q in t.heap
    ensures var d := Delete(t, t.heap[q].fd);
            if q in t.socks
            then var i := FirstFd(t.fds, t.heap[q].fd);
                 && i < |t.fds| && t.socks[i] == q
                 && d == t.(fds := SwapRemove(t.fds, i), socks := SwapRemove(t.socks, i))
            else d == t
  {
    if t.heap[q].fd != INVALID {
      FirstFdIsOwn(t, q);
    }
  }

  /** Deleting the entry of one socket keeps the others paired and polled. */
  lemma DeleteKeepsPoll(t: Tables, p: Ptr)
    requires HeapOk(t.heap) && PollOk(t) && p in t.heap
    ensures var d := Delete(t, t.heap[p].fd);
            && PollOk(d) && d == t.(fds := d.fds, socks := d.socks)
            && (forall q :: q in d.socks <==> q in t.socks && q != p)
  {
    DeleteIsSwapRemove(t, p);
    if p in t.socks {
      var i := FirstFd(t.fds, t.heap[p].fd);
      SwapRemoveIs(t.fds, i);
      SwapRemoveIs(t.socks, i);
      SwapRemoveMembers(t.socks, i);
    }
  }

  /** `OnReadSocketError` leaves consistent tables, none of which holds the socket. */
  lemma DropKeepsOk(t: Tables, p: Ptr, max: nat)
    requires Ok(t, max) && p in t.heap
    ensures var d := Drop(t, p);
            && Ok(d, max) && p !in d.socks && p !in d.readers && p !in d.writers && p !in d.heap
            && (forall q :: q in d.socks <==> q in t.socks && q != p)
            && (forall q :: q != 0 ==> (q in d.writers <==> q in t.writers && q != p))
            && (forall q :: q != 0 ==> (q in d.readers <==> q in t.readers && q != p))
            && d.heap == t.heap - {p} && d.created == t.created
  {
    DeleteKeepsPoll(t, p);
    FreeKeepsSlots(t.readers, p, t.heap);
    FreeKeepsSlots(t.writers, p, t.heap);
  }

  lemma DropKeepsWriters(t: Tables, p: Ptr, max: nat)
    requires Ok(t, max) && WritersOk(t) && p in t.heap
    ensures WritersOk(Drop(t, p))
  {
    DropKeepsOk(t, p, max);
    DeleteIsSwapRemove(t, p);
    if p in t.socks {
      var i := FirstFd(t.fds, t.heap[p].fd);
      SwapRemoveIs(t.fds, i);
      SwapRemoveIs(t.socks, i);
    }
  }

  // ----- Readers -----

  /** The old entries are where they were and have lost no read bit. */
  predicate Widens(t: Tables, u: Tables) {
    && |t.fds| == |t.socks| <= |u.socks| == |u.fds|
    && forall i :: 0 <= i < |t.socks| ==> u.socks[i] == t.socks[i] && t.fds[i].events * READ_BITS <= u.fds[i].events
  }

  lemma WidenedKeepsReaders(t: Tables, u: Tables)
    requires Widens(t, u) && u.readers == t.readers && ReadersPolled(t)
    ensures ReadersPolled(u)
  {
    forall p | p in u.readers && p != 0
      ensures Polls(u, p, READ_BITS)
    {
      var i :| 0 <= i < |t.socks| && t.socks[i] == p && READ_BITS <= t.fds[i].events;
      assert u.socks[i] == p && READ_BITS <= u.fds[i].events;
    }
  }

  lemma DropKeepsReaders(t: Tables, p: Ptr, max: nat)
    requires Ok(t, max) && ReadersPolled(t) && p in t.heap
    ensures ReadersPolled(Drop(t, p))
  {
    var u := Drop(t, p);
    DropKeepsOk(t, p, max);
    DeleteIsSwapRemove(t, p);
    forall q | q in u.readers && q != 0
      ensures Polls(u, q, READ_BITS)
    {
      var k :| 0 <= k < |t.socks| && t.socks[k] == q && READ_BITS <= t.fds[k].events;
      if p in t.socks {
        var i := FirstFd(t.fds, t.heap[p].fd);
        SwapRemoveIs(t.fds, i);
        SwapRemoveIs(t.socks, i);
        var j := if k == |t.socks| - 1 then i else k;
        assert u.socks[j] == q && u.fds[j] == t.fds[k];
      }
    }
  }

  // ----- Write interest -----

  /** Write interest and membership among the writers come and go together. */
  lemma EnlistKeepsOk(t: Tables, i: nat, p: Ptr, max: nat)
    requires Ok(t, max) && i < |t.socks| && t.socks[i] == p && p !in t.writers
    ensures Ok(Enlist(t, i, p), max)
    ensures WritersOk(t) ==> WritersOk(Enlist(t, i, p)) && p in Enlist(t, i, p).writers
    ensures forall q :: q != 0 && q != p ==> (q in Enlist(t, i, p).writers <==> q in t.writers)
  {
    FillKeepsSlots(t.writers, p, t.heap);
    if WritersOk(t) {
      FreeWriterSlot(t, p, max);
      assert Out in (t.fds[i].events + WRITE_BITS) * WRITE_BITS;
    }
  }

  lemma DelistKeepsOk(t: Tables, i: nat, p: Ptr, max: nat)
    requires Ok(t, max) && i < |t.socks| && t.socks[i] == p
    ensures Ok(Delist(t, i, p), max) && (WritersOk(t) ==> WritersOk(Delist(t, i, p)))
    ensures forall q :: q != 0 ==> (q in Delist(t, i, p).writers <==> q in t.writers && q != p)
  {
    FreeKeepsSlots(t.writers, p, t.heap);
    assert (t.fds[i].events - WRITE_BITS) * WRITE_BITS == {};
  }

  // ----- New sockets -----

  /** A socket object at a free address, with a descriptor of its own. */
  predicate IsNew(t: Tables, p: Ptr, fd: int) {
    p != 0 && p !in t.heap && fd >= 0 && forall q <- t.heap :: t.heap[q].fd != fd
  }

  function Allocate(t: Tables, p: Ptr, fd: int, pending: nat): Tables {
    t.(heap := t.heap[p := Conn(fd, pending, t.created)], created := t.created + 1)
  }

  lemma AllocateKeepsOk(t: Tables, p: Ptr, fd: int, pending: nat, max: nat)
    requires Ok(t, max) && IsNew(t, p, fd)
    ensures Ok(Allocate(t, p, fd, pending), max) && (WritersOk(t) ==> WritersOk(Allocate(t, p, fd, pending)))
    ensures p !in t.socks && p !in t.readers && p !in t.writers
  {
  }

  /** An entry for a live socket at the end of the poll table. */
  lemma AddKeepsOk(t: Tables, p: Ptr, bits: set<Bit>, max: nat)
    requires Ok(t, max) && p in t.heap && t.heap[p].fd != INVALID && p !in t.socks && |t.socks| < max
    ensures Ok(Add(t, p, t.heap[p].fd, bits), max)
    ensures WritersOk(t) && bits * WRITE_BITS == {} ==> WritersOk(Add(t, p, t.heap[p].fd, bits))
  {
  }

  lemma ReaderKeepsOk(t: Tables, p: Ptr, max: nat)
    requires Ok(t, max) && p in t.heap && p !in t.readers
    ensures Ok(t.(readers := Refill(t.readers, 0, p)), max)
  {
    FillKeepsSlots(t.readers, p, t.heap);
  }

  /** A new socket among the readers and at the end of the poll table. */
  function Adopt(t: Tables, p: Ptr, fd: int, pending: nat): Tables {
    Add(Allocate(t, p, fd, pending).(readers := Refill(t.readers, 0, p)), p, fd, READ_BITS)
  }

  lemma AdoptKeepsOk(t: Tables, p: Ptr, fd: int, pending: nat, max: nat)
    requires Ok(t, max) && IsNew(t, p, fd) && |t.socks| < max
    ensures Ok(Adopt(t, p, fd, pending), max) && (WritersOk(t) ==> WritersOk(Adopt(t, p, fd, pending)))
  {
    var a := Allocate(t, p, fd, pending);
    AllocateKeepsOk(t, p, fd, pending, max);
    ReaderKeepsOk(a, p, max);
    assert READ_BITS * WRITE_BITS == {};
    AddKeepsOk(a.(readers := Refill(t.readers, 0, p)), p, READ_BITS, max);
  }

  lemma PendingKeepsOk(t: Tables, p: Ptr, n: nat, max: nat)
    requires Ok(t, max) && p in t.heap
    ensures Ok(WithPending(t, p, n), max) && (WritersOk(t) ==> WritersOk(WithPending(t, p, n)))
  {
  }
}
