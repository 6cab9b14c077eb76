/** The tables of the network thread as values: the poll descriptors with their sockets, the
    read and the write sockets, and the memory the socket pointers lead to. */
module PollTables {
  /** The bits of `events` and `revents`. */
  datatype Bit = In | Pri | Out | Err | Hup | Nval | RdNorm | RdBand | WrNorm | WrBand

  const READ_BITS: set<Bit> := {In, RdNorm, RdBand, Pri}
  const WRITE_BITS: set<Bit> := {Out, WrNorm, WrBand}

  datatype PollFd = PollFd(fd: int, events: set<Bit>, revents: set<Bit>)

  const INVALID: int := -1
  const BLANK: PollFd := PollFd(INVALID, {}, {})

  /** An address; 0 is the null pointer. */
  type Ptr = nat

  /** A socket object: its descriptor, how many bytes are queued for sending, and the number
      under which it was created. Addresses are used again after a `delete`, numbers are not. */
  datatype Conn = Conn(fd: int, pending: nat, id: nat)

  datatype Tables = Tables(
    fds: seq<PollFd>, socks: seq<Ptr>,     // the poll table in use, in parallel
    readers: seq<Ptr>, writers: seq<Ptr>,  // all slots, null where free
    heap: map<Ptr, Conn>,                  // the live socket objects
    created: nat)                          // how many were ever created

  /** Slots that are all free. */
  function Free(max: nat): (slots: seq<Ptr>)
    ensures |slots| == max && forall i :: 0 <= i < max ==> slots[i] == 0
  {
    seq(max, _ => 0)
  }

  // ----- Searching and editing -----

  /** The first entry with descriptor `fd`, or the length of the table. */
  function FirstFd(fds: seq<PollFd>, fd: int): (i: nat)
    ensures i <= |fds| && (i < |fds| ==> fds[i].fd == fd)
    ensures forall j :: 0 <= j < i ==> fds[j].fd != fd
  {
    if fds == [] || fds[0].fd == fd then 0 else 1 + FirstFd(fds[1..], fd)
  }

  /** The first slot that holds `p`, or the number of slots. */
  function FirstSlot(slots: seq<Ptr>, p: Ptr): (i: nat)
    ensures i <= |slots| && (i < |slots| ==> slots[i] == p)
    ensures forall j :: 0 <= j < i ==> slots[j] != p
  {
    if slots == [] || slots[0] == p then 0 else 1 + FirstSlot(slots[1..], p)
  }

  /** The last element takes the place of the removed one. */
  function SwapRemove<T>(s: seq<T>, i: nat): (r: seq<T>)
    requires i < |s|
    ensures |r| == |s| - 1
  {
    s[i := s[|s| - 1]][..|s| - 1]
  }

  /** Puts `p` into the first slot that holds `was`, if there is one. */
  function Refill(slots: seq<Ptr>, was: Ptr, p: Ptr): (r: seq<Ptr>)
    ensures |r| == |slots|
  {
    var i := FirstSlot(slots, was);
    if i < |slots| then slots[i := p] else slots
  }

  function Delete(t: Tables, fd: int): Tables
    requires |t.fds| == |t.socks|
  {
    var i := FirstFd(t.fds, fd);
    if fd == INVALID || i == |t.fds| then t
    else t.(fds := SwapRemove(t.fds, i), socks := SwapRemove(t.socks, i))
  }

  function Add(t: Tables, p: Ptr, fd: int, bits: set<Bit>): Tables {
    t.(fds := t.fds + [PollFd(fd, bits, {})], socks := t.socks + [p])
  }

  /** `OnReadSocketError`: the socket leaves every table, is closed and deleted. */
  function Drop(t: Tables, p: Ptr): Tables
    requires |t.fds| == |t.socks| && p in t.heap
  {
    var d := Delete(t, t.heap[p].fd);
    d.(writers := Refill(d.writers, p, 0), readers := Refill(d.readers, p, 0), heap := d.heap - {p})
  }

  function WithEvents(t: Tables, i: nat, events: set<Bit>): Tables
    requires i < |t.fds|
  {
    t.(fds := t.fds[i := t.fds[i].(events := events)])
  }

  /** Write interest for the polled socket `p` in entry `i`, and a slot among the writers. */
  function Enlist(t: Tables, i: nat, p: Ptr): Tables
    requires i < |t.fds|
  {
    WithEvents(t, i, t.fds[i].events + WRITE_BITS).(writers := Refill(t.writers, 0, p))
  }

  function Delist(t: Tables, i: nat, p: Ptr): Tables
    requires i < |t.fds|
  {
    WithEvents(t, i, t.fds[i].events - WRITE_BITS).(writers := Refill(t.writers, p, 0))
  }

  function WithPending(t: Tables, p: Ptr, n: nat): Tables
    requires p in t.heap
  {
    t.(heap := t.heap[p := t.heap[p].(pending := n)])
  }

  function Cleared(t: Tables, i: nat): Tables
    requires i < |t.fds|
  {
    t.(fds := t.fds[i := t.fds[i].(revents := {})])
  }

  // ----- Consistency -----

  /** Descriptors of live sockets differ: the operating system sees to that. */
  predicate HeapOk(heap: map<Ptr, Conn>) {
    && 0 !in heap
    && (forall p, q :: p in heap && q in heap && p != q && heap[p].fd != INVALID ==> heap[p].fd != heap[q].fd)
  }

  /** Every poll entry belongs to one live socket and carries its descriptor. */
  predicate PollOk(t: Tables) {
    && |t.fds| == |t.socks|
    && (forall i :: 0 <= i < |t.socks| ==> t.socks[i] in t.heap && t.fds[i].fd == t.heap[t.socks[i]].fd != INVALID)
    && (forall i, j :: 0 <= i < j < |t.socks| ==> t.socks[i] != t.socks[j])
  }

  predicate SlotsOk(slots: seq<Ptr>, heap: map<Ptr, Conn>) {
    && (forall i :: 0 <= i < |slots| && slots[i] != 0 ==> slots[i] in heap)
    && (forall i, j :: 0 <= i < j < |slots| && slots[i] != 0 ==> slots[i] != slots[j])
  }

  /** The writers are polled sockets, with all write bits; the others have none. */
  predicate WritersOk(t: Tables) {
    && |t.fds| == |t.socks|
    && (forall p <- t.writers :: p == 0 || p in t.socks)
    && (forall i :: 0 <= i < |t.socks| ==>
          if t.socks[i] in t.writers then WRITE_BITS <= t.fds[i].events else t.fds[i].events * WRITE_BITS == {})
  }

  /** The socket has an entry with these bits. */
  predicate Polls(t: Tables, p: Ptr, bits: set<Bit>) {
    |t.fds| == |t.socks| && exists i :: 0 <= i < |t.socks| && t.socks[i] == p && bits <= t.fds[i].events
  }

  /** The readers are polled with all read bits. */
  predicate ReadersPolled(t: Tables) {
    forall p <- t.readers :: p == 0 || Polls(t, p, READ_BITS)
  }

  predicate Ok(t: Tables, max: nat) {
    && HeapOk(t.heap) && PollOk(t)
    && (forall p <- t.heap :: t.heap[p].id < t.created)
    && SlotsOk(t.readers, t.heap) && SlotsOk(t.writers, t.heap)
    && |t.socks| <= max && |t.readers| == |t.writers| == max
  }

  /** In a consistent table the entry of a socket's descriptor is the socket's own. */
  lemma FirstFdIsOwn(t: Tables, p: Ptr)
    requires HeapOk(t.heap) && PollOk(t) && p in t.heap && t.heap[p].fd != INVALID
    ensures var i := FirstFd(t.fds, t.heap[p].fd);
            if i < |t.socks| then t.socks[i] == p else p !in t.socks
  {
    var i := FirstFd(t.fds, t.heap[p].fd);
    if i < |t.socks| {
      assert t.socks[i] in t.heap;
    }
  }

  // ----- The poll table is a finite map -----

  datatype Entry = Entry(socket: Ptr, events: set<Bit>, revents: set<Bit>)

  /** The map from descriptor to socket and bits that a poll table stands for. */
  function AsMap(fds: seq<PollFd>, socks: seq<Ptr>): (m: map<int, Entry>)
    requires |fds| == |socks|
  {
    if fds == [] then map[]
    else
      var n := |fds| - 1;
      AsMap(fds[..n], socks[..n])[fds[n].fd := Entry(socks[n], fds[n].events, fds[n].revents)]
  }

  predicate DistinctFds(fds: seq<PollFd>) {
    forall i, j :: 0 <= i < j < |fds| ==> fds[i].fd != fds[j].fd
  }

  /** Where a descriptor is in a table and in the same table without its last entry. */
  lemma FirstFdInFront(fds: seq<PollFd>, fd: int)
    requires fds != [] && DistinctFds(fds)
    ensures var n := |fds| - 1; FirstFd(fds, fd) < |fds| <==> FirstFd(fds[..n], fd) < n || fds[n].fd == fd
  {
    var n := |fds| - 1;
    var i, j := FirstFd(fds, fd), FirstFd(fds[..n], fd);
    if i < n {
      assert fds[..n][i].fd == fd;
    }
    if j < n {
      assert fds[j].fd == fd;
    }
  }

  /** The map holds exactly the entries of the table, each with its own socket. */
  lemma {:induction false} AsMapIs(fds: seq<PollFd>, socks: seq<Ptr>)
    requires |fds| == |socks| && DistinctFds(fds)
    ensures forall fd :: fd in AsMap(fds, socks) <==> FirstFd(fds, fd) < |fds|
    ensures forall i :: 0 <= i < |fds| ==>
              (fds[i].fd in AsMap(fds, socks)
               && AsMap(fds, socks)[fds[i].fd] == Entry(socks[i], fds[i].events, fds[i].revents))
  {
    if fds != [] {
      var n := |fds| - 1;
      AsMapIs(fds[..n], socks[..n]);
      var m := AsMap(fds[..n], socks[..n]);
      assert AsMap(fds, socks) == m[fds[n].fd := Entry(socks[n], fds[n].events, fds[n].revents)];
      forall fd
        ensures fd in AsMap(fds, socks) <==> FirstFd(fds, fd) < |fds|
      {
        FirstFdInFront(fds, fd);
      }
      forall i | 0 <= i < n
        ensures fds[i].fd in m && m[fds[i].fd] == Entry(socks[i], fds[i].events, fds[i].revents)
      {
        assert fds[..n][i] == fds[i] && socks[..n][i] == socks[i];
      }
    }
  }

  lemma AsMapAt(fds: seq<PollFd>, socks: seq<Ptr>, fd: int)
    requires |fds| == |socks| && DistinctFds(fds)
    ensures var i, m := FirstFd(fds, fd), AsMap(fds, socks);
            if i < |fds| then fd in m && m[fd] == Entry(socks[i], fds[i].events, fds[i].revents) else fd !in m
  {
    AsMapIs(fds, socks);
  }

  /** Adding a descriptor adds one entry to the map. */
  lemma AddToMap(fds: seq<PollFd>, socks: seq<Ptr>, p: Ptr, e: PollFd)
    requires |fds| == |socks|
    ensures AsMap(fds + [e], socks + [p]) == AsMap(fds, socks)[e.fd := Entry(p, e.events, e.revents)]
  {
    assert (fds + [e])[..|fds|] == fds && (socks + [p])[..|socks|] == socks;
  }

  /** Where the entry of a descriptor is after a deletion. */
  lemma FirstAfterDelete(fds: seq<PollFd>, i: nat, fd: int)
    requires DistinctFds(fds) && i < |fds|
    ensures DistinctFds(SwapRemove(fds, i))
    ensures var k, j := FirstFd(fds, fd), FirstFd(SwapRemove(fds, i), fd);
            if k == |fds| || k == i then j == |fds| - 1
            else j == if k == |fds| - 1 then i else k
  {
    var rest := SwapRemove(fds, i);
    assert forall j :: 0 <= j < |rest| ==> rest[j] == fds[if j == i then |fds| - 1 else j];
    var k := FirstFd(fds, fd);
    if k < |fds| && k != i {
      assert rest[if k == |fds| - 1 then i else k].fd == fd;
    }
  }

  /** Deleting by swapping in the last entry removes exactly the named descriptor: all other
      entries keep their bits and are still paired with their sockets. */
  lemma DeleteFromMap(fds: seq<PollFd>, socks: seq<Ptr>, i: nat)
    requires |fds| == |socks| && DistinctFds(fds) && i < |fds|
    ensures AsMap(SwapRemove(fds, i), SwapRemove(socks, i)) == AsMap(fds, socks) - {fds[i].fd}
  {
    var m := AsMap(fds, socks) - {fds[i].fd};
    var m' := AsMap(SwapRemove(fds, i), SwapRemove(socks, i));
    forall fd
      ensures fd in m' <==> fd in m
      ensures fd in m ==> m'[fd] == m[fd]
    {
      DeleteFromMapAt(fds, socks, i, fd);
    }
  }

  lemma DeleteFromMapAt(fds: seq<PollFd>, socks: seq<Ptr>, i: nat, fd: int)
    requires |fds| == |socks| && DistinctFds(fds) && i < |fds|
    ensures var m, m' := AsMap(fds, socks), AsMap(SwapRemove(fds, i), SwapRemove(socks, i));
            if fd == fds[i].fd then fd !in m' else (fd in m' <==> fd in m) && (fd in m ==> m'[fd] == m[fd])
  {
    FirstAfterDelete(fds, i, fd);
    AsMapAt(fds, socks, fd);
    AsMapAt(SwapRemove(fds, i), SwapRemove(socks, i), fd);
    SwapRemoveIs(fds, i);
    SwapRemoveIs(socks, i);
  }

  lemma SwapRemoveIs<T>(s: seq<T>, i: nat)
    requires i < |s|
    ensures forall j :: 0 <= j < |s| - 1 ==> SwapRemove(s, i)[j] == s[if j == i then |s| - 1 else j]
  {
  }

  lemma ConsistentIsDistinct(t: Tables)
    requires HeapOk(t.heap) && PollOk(t)
    ensures DistinctFds(t.fds)
  {
    forall i, j | 0 <= i < j < |t.fds|
      ensures t.fds[i].fd != t.fds[j].fd
    {
      assert t.socks[i] in t.heap && t.socks[j] in t.heap;
    }
  }

  /** `PollFDAdd`, `PollFDDelete` and `FindPollFD` are insertion, removal and look-up in the
      finite map of a consistent poll table. */
  lemma TableRefinesMap(t: Tables, p: Ptr, bits: set<Bit>)
    requires HeapOk(t.heap) && PollOk(t) && p in t.heap && t.heap[p].fd != INVALID
    ensures var fd, m := t.heap[p].fd, AsMap(t.fds, t.socks);
            && AsMap(Delete(t, fd).fds, Delete(t, fd).socks) == m - {fd}
            && AsMap(Add(t, p, fd, bits).fds, Add(t, p, fd, bits).socks) == m[fd := Entry(p, bits, {})]
            && (FirstFd(t.fds, fd) < |t.fds| <==> fd in m)
            && (fd in m ==> m[fd].socket == p)
  {
    var fd := t.heap[p].fd;
    var i := FirstFd(t.fds, fd);
    ConsistentIsDistinct(t);
    AsMapIs(t.fds, t.socks);
    AddToMap(t.fds, t.socks, p, PollFd(fd, bits, {}));
    if i < |t.fds| {
      DeleteFromMap(t.fds, t.socks, i);
      FirstFdIsOwn(t, p);
      assert AsMap(t.fds, t.socks)[t.fds[i].fd].socket == t.socks[i];
    } else {
      assert AsMap(t.fds, t.socks) - {fd} == AsMap(t.fds, t.socks);
    }
  }
}
