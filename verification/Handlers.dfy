/** What message handlers may do to the network thread's tables while an entry is being served:
    any sequence of deeds, each of them an operation the thread offers. */
module Handlers {
  import opened PollFlags
  import opened PollTables
  import opened TableLaws

  // ----- Operations that handlers call -----

  /** `FindSocket`: is there a socket with this descriptor in the slots? */
  predicate Listed(slots: seq<Ptr>, heap: map<Ptr, Conn>, fd: int) {
    exists q <- slots :: q != 0 && q in heap && heap[q].fd == fd
  }

  /** Under consistency a descriptor is found in a table just when its own socket is there. */
  lemma ListedIsMember(slots: seq<Ptr>, heap: map<Ptr, Conn>, p: Ptr)
    requires HeapOk(heap) && SlotsOk(slots, heap) && p in heap && heap[p].fd != INVALID
    ensures Listed(slots, heap, heap[p].fd) <==> p in slots
  {
  }

  /** Interest in the given bits for a socket: in its entry, or in a new one if there is room.
      Whether the poll table took it is not asked. */
  function Interested(t: Tables, p: Ptr, bits: set<Bit>, max: nat): Tables
    requires p in t.heap
  {
    var fd := t.heap[p].fd;
    var i := FirstFd(t.fds, fd);
    if fd == INVALID then t
    else if i < |t.fds| then WithEvents(t, i, t.fds[i].events + bits)
    else if |t.fds| < max then Add(t, p, fd, bits)
    else t
  }

  /** `CheckWriteOperation`: for a socket with queued bytes that is not among the writers, write
      interest and a slot there. */
  function CheckWrite(t: Tables, p: Ptr, max: nat): Tables
    requires p in t.heap
  {
    if t.heap[p].fd == INVALID || t.heap[p].pending == 0 || p in t.writers then t
    else Interested(t, p, WRITE_BITS, max).(writers := Refill(t.writers, 0, p))
  }

  /** The poll table is asked to take a socket for which it has no room. */
  predicate Overflows(t: Tables, p: Ptr, max: nat)
    requires p in t.heap
  {
    t.heap[p].fd != INVALID && t.heap[p].pending > 0 && p !in t.writers && p !in t.socks && |t.socks| >= max
  }

  lemma CheckWriteKeepsOk(t: Tables, p: Ptr, max: nat)
    requires Ok(t, max) && p in t.heap
    ensures var u := CheckWrite(t, p, max);
            && Ok(u, max) && Grown(t, u) && u.heap == t.heap && u.readers == t.readers && u.created == t.created
            && (forall q :: q != 0 && q != p ==> (q in u.writers <==> q in t.writers))
  {
    if CheckWrite(t, p, max) != t {
      FirstFdIsOwn(t, p);
      var i := FirstFd(t.fds, t.heap[p].fd);
      if i < |t.fds| {
        EnlistKeepsOk(t, i, p, max);
      } else {
        FillKeepsSlots(t.writers, p, t.heap);
        if |t.fds| < max {
          AddKeepsOk(t, p, WRITE_BITS, max);
        }
      }
    }
  }

  /** It leaves the writers consistent with the poll table exactly when the table does not
      overflow, or when there is no slot among the writers either. */
  lemma CheckWriteKeepsWritersIff(t: Tables, p: Ptr, max: nat)
    requires Ok(t, max) && WritersOk(t) && p in t.heap
    ensures WritersOk(CheckWrite(t, p, max)) <==> !Overflows(t, p, max) || 0 !in t.writers
  {
    if CheckWrite(t, p, max) != t {
      FirstFdIsOwn(t, p);
      var i := FirstFd(t.fds, t.heap[p].fd);
      if i < |t.fds| {
        EnlistKeepsOk(t, i, p, max);
      } else {
        RefillIs(t.writers, 0, p);
        FillKeepsSlots(t.writers, p, t.heap);
        if |t.fds| < max {
          assert Out in WRITE_BITS * WRITE_BITS;
          FreeSlotBelow(t, max);
        }
      }
    }
  }

  /** A socket with queued bytes ends up polled for writing and among the writers exactly when
      it was polled before or the poll table has room. */
  lemma CheckWriteAttendsIff(t: Tables, p: Ptr, max: nat)
    requires Ok(t, max) && WritersOk(t) && p in t.heap && t.heap[p].fd != INVALID && t.heap[p].pending > 0
    ensures var u := CheckWrite(t, p, max);
            (WritersOk(u) && p in u.socks && p in u.writers) <==> (p in t.socks || |t.socks| < max)
  {
    CheckWriteKeepsWritersIff(t, p, max);
    FirstFdIsOwn(t, p);
    if p !in t.writers && (p in t.socks || |t.socks| < max) {
      var i := FirstFd(t.fds, t.heap[p].fd);
      if i < |t.fds| {
        EnlistKeepsOk(t, i, p, max);
      } else {
        FreeSlotBelow(t, max);
        FillKeepsSlots(t.writers, p, t.heap);
        assert CheckWrite(t, p, max).socks[|t.socks|] == p;
      }
    }
  }

  /** It does fail: with room for one entry, which socket 1 has, the output of socket 2 is put
      among the writers without an entry in the poll table. */
  lemma FullTableForgetsWriter()
    ensures var t := Tables([PollFd(7, READ_BITS, {})], [1], [1], [0], map[1 := Conn(7, 0, 0), 2 := Conn(8, 5, 1)], 2);
            && Ok(t, 1) && WritersOk(t) && Overflows(t, 2, 1)
            && CheckWrite(t, 2, 1) == t.(writers := [2]) && !WritersOk(CheckWrite(t, 2, 1))
  {
    var t := Tables([PollFd(7, READ_BITS, {})], [1], [1], [0], map[1 := Conn(7, 0, 0), 2 := Conn(8, 5, 1)], 2);
    assert READ_BITS * WRITE_BITS == {};
    FirstFdIsOwn(t, 2);
    assert FirstSlot(t.writers, 0) == 0;
    assert 2 in [2 as Ptr];
  }

  /** `AddReadOperation`: read interest and a reader's slot. */
  function AddRead(t: Tables, p: Ptr, max: nat): Tables
    requires p in t.heap
  {
    if Listed(t.readers, t.heap, t.heap[p].fd) then t
    else Interested(t, p, READ_BITS, max).(readers := Refill(t.readers, 0, p))
  }

  lemma ReadInterestKeepsOk(t: Tables, p: Ptr, max: nat)
    requires Ok(t, max) && p in t.heap
    ensures var u := Interested(t, p, READ_BITS, max);
            && Ok(u, max) && Grown(t, u) && (WritersOk(t) ==> WritersOk(u))
            && u == t.(fds := u.fds, socks := u.socks)
  {
    var fd := t.heap[p].fd;
    if fd != INVALID {
      FirstFdIsOwn(t, p);
      assert READ_BITS * WRITE_BITS == {};
      var i := FirstFd(t.fds, fd);
      if i < |t.fds| {
        assert (t.fds[i].events + READ_BITS) * WRITE_BITS == t.fds[i].events * WRITE_BITS;
      } else if |t.fds| < max {
        AddKeepsOk(t, p, READ_BITS, max);
      }
    }
  }

  lemma AddReadKeepsOk(t: Tables, p: Ptr, max: nat)
    requires Ok(t, max) && p in t.heap
    ensures var u := AddRead(t, p, max);
            && Ok(u, max) && Grown(t, u) && u.heap == t.heap && u.writers == t.writers && u.created == t.created
            && (WritersOk(t) ==> WritersOk(u))
  {
    if !Listed(t.readers, t.heap, t.heap[p].fd) {
      assert p !in t.readers;
      ReadInterestKeepsOk(t, p, max);
      ReaderKeepsOk(Interested(t, p, READ_BITS, max), p, max);
    }
  }

  /** The poll table does not take a socket that is to become a reader. */
  predicate ReadOverflows(t: Tables, p: Ptr, max: nat)
    requires p in t.heap
  {
    && !Listed(t.readers, t.heap, t.heap[p].fd) && p !in t.socks
    && (t.heap[p].fd == INVALID || |t.socks| >= max)
  }

  /** It leaves every reader polled exactly when the poll table takes the socket, or when there is
      no slot among the readers either. */
  lemma AddReadKeepsReadersIff(t: Tables, p: Ptr, max: nat)
    requires Ok(t, max) && ReadersPolled(t) && p in t.heap
    ensures ReadersPolled(AddRead(t, p, max)) <==> !ReadOverflows(t, p, max) || 0 !in t.readers
  {
    var fd, u := t.heap[p].fd, AddRead(t, p, max);
    if !Listed(t.readers, t.heap, fd) {
      assert p !in t.readers;
      FillKeepsSlots(t.readers, p, t.heap);
      RefillIs(t.readers, 0, p);
      if fd != INVALID {
        FirstFdIsOwn(t, p);
        if FirstFd(t.fds, fd) == |t.fds| < max {
          assert u.socks == t.socks + [p] && u.socks[|t.socks|] == p;
        }
      }
      forall q | q != 0 && q != p
        ensures q in u.readers <==> q in t.readers
        ensures q in t.socks ==> q in u.socks
      {
      }
    }
  }

  /** A socket ends up polled and among the readers exactly when it was polled before or the poll
      table has room. */
  lemma AddReadAttendsIff(t: Tables, p: Ptr, max: nat)
    requires Ok(t, max) && ReadersPolled(t) && p in t.heap && t.heap[p].fd != INVALID
    ensures var u := AddRead(t, p, max);
            (ReadersPolled(u) && p in u.socks && p in u.readers) <==> (p in t.socks || |t.socks| < max)
  {
    AddReadKeepsReadersIff(t, p, max);
    ListedIsMember(t.readers, t.heap, p);
    FirstFdIsOwn(t, p);
    if p !in t.readers && (p in t.socks || |t.socks| < max) {
      FreeSlot(t.readers, t, max, p);
      FillKeepsSlots(t.readers, p, t.heap);
      if p !in t.socks {
        assert AddRead(t, p, max).socks[|t.socks|] == p;
      }
    }
  }

  /** It does fail: the poll table is full of a socket that is no reader, such as the listening
      socket, and socket 2 becomes a reader that is never polled. */
  lemma FullTableForgetsReader()
    ensures var t := Tables([PollFd(7, READ_BITS, {})], [1], [0], [0], map[1 := Conn(7, 0, 0), 2 := Conn(8, 0, 1)], 2);
            && Ok(t, 1) && ReadersPolled(t) && ReadOverflows(t, 2, 1)
            && AddRead(t, 2, 1) == t.(readers := [2]) && !ReadersPolled(AddRead(t, 2, 1))
  {
    var t := Tables([PollFd(7, READ_BITS, {})], [1], [0], [0], map[1 := Conn(7, 0, 0), 2 := Conn(8, 0, 1)], 2);
    FirstFdIsOwn(t, 2);
    assert FirstSlot(t.readers, 0) == 0;
    assert 2 in [2 as Ptr];
  }

  /** What asking the poll table for an interest comes to, said outright: the bits join those in
      the socket's entry; or there is a new last entry with them, if there is room; and no other
      entry changes. */
  ghost predicate Asked(t: Tables, u: Tables, p: Ptr, bits: set<Bit>, max: nat)
    requires p in t.heap
  {
    if p in t.socks then
      && u.socks == t.socks && |u.fds| == |t.fds| == |t.socks|
      && forall j :: 0 <= j < |t.fds| ==>
           var e := t.fds[j];
           u.fds[j] == if t.socks[j] == p then PollFd(e.fd, e.events + bits, e.revents) else e
    else if |t.socks| < max then
      u.socks == t.socks + [p] && u.fds == t.fds + [PollFd(t.heap[p].fd, bits, {})]
    else
      u.socks == t.socks && u.fds == t.fds
  }

  /** `AddReadOperation` on a socket that is not a reader asks for all reads, and makes it one. */
  lemma AddReadAsks(t: Tables, p: Ptr, max: nat)
    requires Ok(t, max) && p in t.heap && t.heap[p].fd != INVALID && p !in t.readers
    ensures var u := AddRead(t, p, max);
            && Asked(t, u, p, {In, RdNorm, RdBand, Pri}, max)
            && u.heap == t.heap && u.writers == t.writers
            && (forall q :: q != 0 ==> (q in u.readers <==> q in t.readers || (q == p && 0 in t.readers)))
  {
    FirstFdIsOwn(t, p);
    ListedIsMember(t.readers, t.heap, p);
    FillKeepsSlots(t.readers, p, t.heap);
  }

  /** `CheckWriteOperation` on a socket with output that is not a writer asks for all writes, and
      makes it one. */
  lemma CheckWriteAsks(t: Tables, p: Ptr, max: nat)
    requires Ok(t, max) && p in t.heap && t.heap[p].fd != INVALID && t.heap[p].pending > 0 && p !in t.writers
    ensures var u := CheckWrite(t, p, max);
            && Asked(t, u, p, {Out, WrNorm, WrBand}, max)
            && u.heap == t.heap && u.readers == t.readers
            && (forall q :: q != 0 ==> (q in u.writers <==> q in t.writers || (q == p && 0 in t.writers)))
  {
    FirstFdIsOwn(t, p);
    FillKeepsSlots(t.writers, p, t.heap);
  }

  /** Neither does anything when there is nothing to do. */
  lemma NothingToAsk(t: Tables, p: Ptr, max: nat)
    requires p in t.heap
    ensures t.heap[p].fd == INVALID || t.heap[p].pending == 0 || p in t.writers ==> CheckWrite(t, p, max) == t
    ensures p in t.readers && p != 0 ==> AddRead(t, p, max) == t
  {
  }

  // ----- Deeds -----

  /** A socket object: an address together with the number of the object that lives there. */
  datatype Object = Object(at: Ptr, id: nat)

  predicate Lives(t: Tables, x: Object) {
    x.at in t.heap && t.heap[x.at].id == x.id
  }

  function ObjectAt(t: Tables, p: Ptr): Object
    requires p in t.heap
  {
    Object(p, t.heap[p].id)
  }

  /** `own`: handlers write to and remove no object but the one they were called for; `roomy`:
      they never let the poll table overflow; and they neither write to nor remove the socket
      at the address `spared`, unless that is null. */
  datatype Rules = Rules(own: bool, roomy: bool, spared: Ptr)

  datatype Deed =
    | Queue(q: Ptr, bytes: nat)  // writes to a socket: that many bytes are queued now
    | Check(q: Ptr)              // CheckWriteOperation
    | Remove(q: Ptr)             // OnReadSocketError
    | Create(q: Ptr, fd: int)    // a new socket object
    | Listen(q: Ptr)             // AddReadOperation

  /** A deed is possible on a live socket, a creation at a free address with a new descriptor;
      and handlers keep the rules. */
  predicate Allowed(t: Tables, d: Deed, me: Object, rules: Rules, max: nat) {
    if d.Create? then IsNew(t, d.q, d.fd)
    else
      && d.q in t.heap
      && (d.Queue? || d.Remove? ==> d.q != rules.spared && (rules.own ==> d.q == me.at && Lives(t, me)))
      && (d.Check? && rules.roomy ==> !Overflows(t, d.q, max))
      && (d.Listen? && rules.roomy ==> !ReadOverflows(t, d.q, max))
  }

  /** Where no rule is in force every deed is allowed that is possible: on a live object, or the
      creation of one at a free address with a descriptor not in use. */
  lemma WithoutRules(t: Tables, d: Deed, me: Object, max: nat)
    ensures Allowed(t, d, me, Rules(false, false, 0), max) <==>
            if d.Create? then d.q != 0 && d.q !in t.heap && d.fd >= 0 && forall p <- t.heap :: t.heap[p].fd != d.fd
            else d.q in t.heap && (d.Queue? || d.Remove? ==> d.q != 0)
  {
  }

  /** One deed by the handler of object `me`; one that is not allowed does not happen. */
  function Act(t: Tables, d: Deed, me: Object, rules: Rules, max: nat): Tables
    requires Ok(t, max)
  {
    if !Allowed(t, d, me, rules, max) then t
    else
      match d
      case Queue(q, bytes) => WithPending(t, q, bytes)
      case Check(q) => CheckWrite(t, q, max)
      case Remove(q) => Drop(t, q)
      case Create(q, fd) => Allocate(t, q, fd, 0)
      case Listen(q) => AddRead(t, q, max)
  }

  /** Writing changes what is queued on the one object, and a creation adds one with nothing queued;
      neither touches a table. The other deeds are operations of the thread. */
  lemma DeedsComeTo(t: Tables, d: Deed, me: Object, rules: Rules, max: nat)
    requires Ok(t, max)
    ensures var u := Act(t, d, me, rules, max);
            if !Allowed(t, d, me, rules, max) then u == t
            else if d.Queue? then u == t.(heap := t.heap[d.q := Conn(t.heap[d.q].fd, d.bytes, t.heap[d.q].id)])
            else if d.Create? then u == t.(heap := t.heap[d.q := Conn(d.fd, 0, t.created)], created := t.created + 1)
            else if d.Check? then u == CheckWrite(t, d.q, max)
            else if d.Listen? then u == AddRead(t, d.q, max)
            else u == Drop(t, d.q)
  {
  }

  function Removal(t: Tables, d: Deed, me: Object, rules: Rules, max: nat): seq<Ptr> {
    if d.Remove? && Allowed(t, d, me, rules, max) then [d.q] else []
  }

  lemma ActKeepsOk(t: Tables, d: Deed, me: Object, rules: Rules, max: nat)
    requires Ok(t, max)
    ensures Ok(Act(t, d, me, rules, max), max)
    ensures WritersOk(t) && rules.roomy ==> WritersOk(Act(t, d, me, rules, max))
  {
    if Allowed(t, d, me, rules, max) {
      match d
      case Queue(q, bytes) => PendingKeepsOk(t, q, bytes, max);
      case Check(q) =>
        CheckWriteKeepsOk(t, q, max);
        if WritersOk(t) {
          CheckWriteKeepsWritersIff(t, q, max);
        }
      case Remove(q) =>
        DropKeepsOk(t, q, max);
        if WritersOk(t) {
          DropKeepsWriters(t, q, max);
        }
      case Create(q, fd) => AllocateKeepsOk(t, q, fd, 0, max);
      case Listen(q) => AddReadKeepsOk(t, q, max);
    }
  }

  lemma ActGrows(t: Tables, d: Deed, me: Object, rules: Rules, max: nat)
    requires Ok(t, max) && Removal(t, d, me, rules, max) == []
    ensures Ok(Act(t, d, me, rules, max), max) && Grown(t, Act(t, d, me, rules, max))
  {
    ActKeepsOk(t, d, me, rules, max);
    if Allowed(t, d, me, rules, max) {
      match d
      case Queue(_, _) =>
      case Check(q) => CheckWriteKeepsOk(t, q, max);
      case Create(_, _) =>
      case Listen(q) => AddReadKeepsOk(t, q, max);
    }
  }

  lemma ActIsTraced(t: Tables, d: Deed, me: Object, rules: Rules, max: nat)
    requires Ok(t, max)
    ensures Ok(Act(t, d, me, rules, max), max)
    ensures Traced(t, Act(t, d, me, rules, max), Removal(t, d, me, rules, max))
  {
    if Removal(t, d, me, rules, max) == [] {
      ActGrows(t, d, me, rules, max);
      GrownIsTraced(t, Act(t, d, me, rules, max));
    } else {
      DropKeepsOk(t, d.q, max);
      DropIsTraced(t, d.q, max);
    }
  }

  /** The socket that a deed moves to an entry before `k` with a flag of `mask` up. */
  function MovedBy(t: Tables, d: Deed, me: Object, rules: Rules, max: nat, mask: set<Bit>, k: nat): (m: seq<Ptr>)
    requires |t.fds| == |t.socks|
    ensures |m| <= |Removal(t, d, me, rules, max)|
  {
    if Removal(t, d, me, rules, max) == [] then [] else MovedByDrop(t, d.q, mask, k)
  }

  lemma ActMoves(t: Tables, d: Deed, me: Object, rules: Rules, max: nat, mask: set<Bit>, k: nat)
    requires Ok(t, max)
    ensures Ok(Act(t, d, me, rules, max), max)
    ensures Moves(t, Act(t, d, me, rules, max), mask, k, MovedBy(t, d, me, rules, max, mask, k))
  {
    if Removal(t, d, me, rules, max) == [] {
      ActGrows(t, d, me, rules, max);
      GrownMovesNobody(t, Act(t, d, me, rules, max), mask, k);
    } else {
      DropKeepsOk(t, d.q, max);
      DropMoves(t, d.q, max, mask, k);
    }
  }

  /** Every object is one of before, with its descriptor, or was created since. */
  predicate Aged(t: Tables, u: Tables) {
    && t.created <= u.created
    && (forall q <- u.heap ::
          (q in t.heap && u.heap[q].id == t.heap[q].id && u.heap[q].fd == t.heap[q].fd) || t.created <= u.heap[q].id)
  }

  lemma ActAges(t: Tables, d: Deed, me: Object, rules: Rules, max: nat)
    requires Ok(t, max)
    ensures Aged(t, Act(t, d, me, rules, max))
  {
    if Allowed(t, d, me, rules, max) {
      match d
      case Queue(_, _) =>
      case Check(q) => CheckWriteKeepsOk(t, q, max);
      case Remove(q) => DropKeepsOk(t, q, max);
      case Create(_, _) =>
      case Listen(q) => AddReadKeepsOk(t, q, max);
    }
  }

  // ----- Readers -----

  lemma CheckWriteWidens(t: Tables, p: Ptr, max: nat)
    requires Ok(t, max) && p in t.heap
    ensures Widens(t, CheckWrite(t, p, max)) && CheckWrite(t, p, max).readers == t.readers
  {
  }

  /** Handlers that never let the poll table overflow leave every reader polled. */
  lemma ActKeepsReaders(t: Tables, d: Deed, me: Object, rules: Rules, max: nat)
    requires Ok(t, max) && ReadersPolled(t) && rules.roomy
    ensures ReadersPolled(Act(t, d, me, rules, max))
  {
    if Allowed(t, d, me, rules, max) {
      match d
      case Remove(q) => DropKeepsReaders(t, q, max);
      case Listen(q) => AddReadKeepsReadersIff(t, q, max);
      case Queue(q, bytes) => WidenedKeepsReaders(t, WithPending(t, q, bytes));
      case Create(q, fd) => WidenedKeepsReaders(t, Allocate(t, q, fd, 0));
      case Check(q) =>
        CheckWriteWidens(t, q, max);
        WidenedKeepsReaders(t, CheckWrite(t, q, max));
    }
  }

  // ----- Output -----

  /** Every object with queued bytes is among the writers; with `WritersOk`, it is polled and
      has write interest. */
  predicate NoLost(t: Tables) {
    AttendedBut(t, {})
  }

  /** The same, but for those at the addresses `owed`. */
  predicate AttendedBut(t: Tables, owed: set<Ptr>) {
    forall q <- t.heap :: t.heap[q].pending > 0 && q !in owed ==> q in t.writers
  }

  /** What a handler still owes the sockets it has written to: `CheckWriteOperation`, or their
      removal. */
  function OwedAfter(t: Tables, d: Deed, me: Object, rules: Rules, max: nat, owed: set<Ptr>): set<Ptr> {
    if !Allowed(t, d, me, rules, max) then owed
    else
      match d
      case Queue(q, _) => owed + {q}
      case Check(q) => if t.heap[q].fd == INVALID then owed else owed - {q}
      case Remove(q) => owed - {q}
      case _ => owed
  }

  /** As long as the poll table does not overflow, no other socket's output is unattended. */
  lemma ActAttends(t: Tables, d: Deed, me: Object, rules: Rules, max: nat, owed: set<Ptr>)
    requires Ok(t, max) && WritersOk(t) && rules.roomy && AttendedBut(t, owed)
    ensures AttendedBut(Act(t, d, me, rules, max), OwedAfter(t, d, me, rules, max, owed))
  {
    if Allowed(t, d, me, rules, max) {
      match d
      case Queue(_, _) =>
      case Check(q) => CheckAttends(t, q, max, owed);
      case Remove(q) => DropKeepsOk(t, q, max);
      case Create(_, _) =>
      case Listen(q) => AddReadKeepsOk(t, q, max);
    }
  }

  lemma CheckAttends(t: Tables, q: Ptr, max: nat, owed: set<Ptr>)
    requires Ok(t, max) && WritersOk(t) && q in t.heap && AttendedBut(t, owed) && !Overflows(t, q, max)
    ensures AttendedBut(CheckWrite(t, q, max), if t.heap[q].fd == INVALID then owed else owed - {q})
  {
    CheckWriteKeepsOk(t, q, max);
    if t.heap[q].fd != INVALID && t.heap[q].pending > 0 && q !in t.writers {
      CheckWriteAttendsIff(t, q, max);
    }
  }

  /** While `me` lives, its entry is still entry `i`. */
  predicate Stays(t: Tables, me: Object, i: nat) {
    && me.id < t.created
    && (Lives(t, me) ==> i < |t.socks| && t.socks[i] == me.at)
  }

  lemma GrownStays(t: Tables, u: Tables, me: Object, i: nat)
    requires |t.fds| == |t.socks| && |u.fds| == |u.socks|
    requires Stays(t, me, i) && Grown(t, u) && Aged(t, u)
    ensures Stays(u, me, i)
  {
  }

  /** A handler that keeps to its own socket owes nobody else, owes it only while it lives, and
      leaves its entry in place. */
  predicate OwesOwn(t: Tables, me: Object, i: nat, owed: set<Ptr>) {
    owed <= {me.at} && (me.at in owed ==> Lives(t, me)) && Stays(t, me, i)
  }

  lemma ActOwesOwn(t: Tables, d: Deed, me: Object, i: nat, rules: Rules, max: nat, owed: set<Ptr>)
    requires Ok(t, max) && rules.own && OwesOwn(t, me, i, owed)
    ensures OwesOwn(Act(t, d, me, rules, max), me, i, OwedAfter(t, d, me, rules, max, owed))
  {
    ActAges(t, d, me, rules, max);
    if Removal(t, d, me, rules, max) == [] {
      ActGrows(t, d, me, rules, max);
      GrownStays(t, Act(t, d, me, rules, max), me, i);
      if Lives(t, me) {
        ActKeepsObject(t, d, me, rules, max, me);
      }
    } else {
      DropKeepsOk(t, d.q, max);
    }
  }

  // ----- The listening socket -----

  /** The object at `l` is `c`, with nothing queued, and is polled. */
  predicate Tended(t: Tables, l: Ptr, c: Conn) {
    l in t.heap && t.heap[l] == c && c.pending == 0 && l in t.socks
  }

  lemma GrownTends(t: Tables, u: Tables, l: Ptr)
    requires |t.fds| == |t.socks| && |u.fds| == |u.socks| && Grown(t, u) && l in t.socks
    ensures l in u.socks
  {
    var i :| 0 <= i < |t.socks| && t.socks[i] == l;
    assert u.socks[i] == l;
  }

  lemma ActTends(t: Tables, d: Deed, me: Object, rules: Rules, max: nat, l: Ptr, c: Conn)
    requires Ok(t, max) && rules.spared == l && Tended(t, l, c)
    ensures Tended(Act(t, d, me, rules, max), l, c)
  {
    if Removal(t, d, me, rules, max) == [] {
      ActGrows(t, d, me, rules, max);
      GrownTends(t, Act(t, d, me, rules, max), l);
      if Allowed(t, d, me, rules, max) {
        match d
        case Queue(_, _) =>
        case Check(q) => CheckWriteKeepsOk(t, q, max);
        case Create(_, _) =>
        case Listen(q) => AddReadKeepsOk(t, q, max);
      }
    } else {
      DropKeepsOk(t, d.q, max);
    }
  }

  // ----- Whole handlers -----

  /** A handler: its deeds, one after the other. */
  function Acts(t: Tables, deeds: seq<Deed>, me: Object, rules: Rules, max: nat): (u: Tables)
    requires Ok(t, max)
    ensures Ok(u, max)
    decreases |deeds|
  {
    if deeds == [] then t
    else
      ActKeepsOk(t, deeds[0], me, rules, max);
      Acts(Act(t, deeds[0], me, rules, max), deeds[1..], me, rules, max)
  }

  /** The deeds are done in order. */
  lemma {:induction false} ActsInOrder(t: Tables, deeds: seq<Deed>, d: Deed, me: Object, rules: Rules, max: nat)
    requires Ok(t, max)
    ensures Acts(t, [], me, rules, max) == t
    ensures Acts(t, deeds + [d], me, rules, max) == Act(Acts(t, deeds, me, rules, max), d, me, rules, max)
    decreases |deeds|
  {
    if deeds == [] {
      assert ([] + [d])[1..] == [];
    } else {
      ActKeepsOk(t, deeds[0], me, rules, max);
      assert (deeds + [d])[1..] == deeds[1..] + [d];
      ActsInOrder(Act(t, deeds[0], me, rules, max), deeds[1..], d, me, rules, max);
    }
  }

  /** The sockets it removes, in order. */
  function Removals(t: Tables, deeds: seq<Deed>, me: Object, rules: Rules, max: nat): seq<Ptr>
    requires Ok(t, max)
    decreases |deeds|
  {
    if deeds == [] then []
    else
      ActKeepsOk(t, deeds[0], me, rules, max);
      Removal(t, deeds[0], me, rules, max) + Removals(Act(t, deeds[0], me, rules, max), deeds[1..], me, rules, max)
  }

  /** The sockets it moves to an entry before `k` with a flag of `mask` up: at most one for each
      that it removes. */
  function MovedByAll(t: Tables, deeds: seq<Deed>, me: Object, rules: Rules, max: nat, mask: set<Bit>, k: nat)
    : (m: seq<Ptr>)
    requires Ok(t, max)
    ensures |m| <= |Removals(t, deeds, me, rules, max)|
    decreases |deeds|
  {
    if deeds == [] then []
    else
      ActKeepsOk(t, deeds[0], me, rules, max);
      MovedBy(t, deeds[0], me, rules, max, mask, k)
      + MovedByAll(Act(t, deeds[0], me, rules, max), deeds[1..], me, rules, max, mask, k)
  }

  /** No handler raises a flag, and it lowers none but those of the sockets it removes. */
  lemma {:induction false} ActsAreTraced(t: Tables, deeds: seq<Deed>, me: Object, rules: Rules, max: nat)
    requires Ok(t, max)
    ensures Traced(t, Acts(t, deeds, me, rules, max), Removals(t, deeds, me, rules, max))
    decreases |deeds|
  {
    if deeds != [] {
      var u := Act(t, deeds[0], me, rules, max);
      ActIsTraced(t, deeds[0], me, rules, max);
      ActsAreTraced(u, deeds[1..], me, rules, max);
      TracedThen(t, u, Acts(t, deeds, me, rules, max), Removal(t, deeds[0], me, rules, max),
                 Removals(u, deeds[1..], me, rules, max));
    }
  }

  lemma {:induction false} ActsMove(t: Tables, deeds: seq<Deed>, me: Object, rules: Rules, max: nat,
                                    mask: set<Bit>, k: nat)
    requires Ok(t, max)
    ensures Moves(t, Acts(t, deeds, me, rules, max), mask, k, MovedByAll(t, deeds, me, rules, max, mask, k))
    decreases |deeds|
  {
    if deeds != [] {
      var u := Act(t, deeds[0], me, rules, max);
      ActIsTraced(t, deeds[0], me, rules, max);
      ActMoves(t, deeds[0], me, rules, max, mask, k);
      ActsAreTraced(u, deeds[1..], me, rules, max);
      ActsMove(u, deeds[1..], me, rules, max, mask, k);
      MovesThen(t, u, Acts(u, deeds[1..], me, rules, max),
                Removal(t, deeds[0], me, rules, max), Removals(u, deeds[1..], me, rules, max), mask, k,
                MovedBy(t, deeds[0], me, rules, max, mask, k),
                MovedByAll(u, deeds[1..], me, rules, max, mask, k));
    }
  }

  lemma {:induction false} ActsAge(t: Tables, deeds: seq<Deed>, me: Object, rules: Rules, max: nat)
    requires Ok(t, max)
    ensures Aged(t, Acts(t, deeds, me, rules, max))
    decreases |deeds|
  {
    if deeds != [] {
      ActAges(t, deeds[0], me, rules, max);
      ActKeepsOk(t, deeds[0], me, rules, max);
      ActsAge(Act(t, deeds[0], me, rules, max), deeds[1..], me, rules, max);
    }
  }

  /** An object lives on until its socket is removed. */
  lemma {:induction false} ActsKeepObject(t: Tables, deeds: seq<Deed>, me: Object, rules: Rules, max: nat, x: Object)
    requires Ok(t, max) && Lives(t, x) && x.at !in Removals(t, deeds, me, rules, max)
    ensures Lives(Acts(t, deeds, me, rules, max), x)
    decreases |deeds|
  {
    if deeds != [] {
      ActKeepsOk(t, deeds[0], me, rules, max);
      ActKeepsObject(t, deeds[0], me, rules, max, x);
      ActsKeepObject(Act(t, deeds[0], me, rules, max), deeds[1..], me, rules, max, x);
    }
  }

  lemma ActKeepsObject(t: Tables, d: Deed, me: Object, rules: Rules, max: nat, x: Object)
    requires Ok(t, max) && Lives(t, x) && x.at !in Removal(t, d, me, rules, max)
    ensures Lives(Act(t, d, me, rules, max), x)
  {
    if Allowed(t, d, me, rules, max) {
      match d
      case Queue(_, _) =>
      case Check(q) => CheckWriteKeepsOk(t, q, max);
      case Remove(q) => DropKeepsOk(t, q, max);
      case Create(_, _) =>
      case Listen(q) => AddReadKeepsOk(t, q, max);
    }
  }

  lemma {:induction false} ActsKeepReaders(t: Tables, deeds: seq<Deed>, me: Object, rules: Rules, max: nat)
    requires Ok(t, max) && ReadersPolled(t) && rules.roomy
    ensures ReadersPolled(Acts(t, deeds, me, rules, max))
    decreases |deeds|
  {
    if deeds != [] {
      ActKeepsOk(t, deeds[0], me, rules, max);
      ActKeepsReaders(t, deeds[0], me, rules, max);
      ActsKeepReaders(Act(t, deeds[0], me, rules, max), deeds[1..], me, rules, max);
    }
  }

  lemma {:induction false} ActsKeepWriters(t: Tables, deeds: seq<Deed>, me: Object, rules: Rules, max: nat)
    requires Ok(t, max) && WritersOk(t) && rules.roomy
    ensures WritersOk(Acts(t, deeds, me, rules, max))
    decreases |deeds|
  {
    if deeds != [] {
      ActKeepsOk(t, deeds[0], me, rules, max);
      ActsKeepWriters(Act(t, deeds[0], me, rules, max), deeds[1..], me, rules, max);
    }
  }

  /** What a handler owes in the end. */
  function Owed(t: Tables, deeds: seq<Deed>, me: Object, rules: Rules, max: nat, owed: set<Ptr>): set<Ptr>
    requires Ok(t, max)
    decreases |deeds|
  {
    if deeds == [] then owed
    else
      ActKeepsOk(t, deeds[0], me, rules, max);
      Owed(Act(t, deeds[0], me, rules, max), deeds[1..], me, rules, max, OwedAfter(t, deeds[0], me, rules, max, owed))
  }

  /** Nobody's output is unattended but that of the sockets it owes. */
  lemma {:induction false} ActsAttend(t: Tables, deeds: seq<Deed>, me: Object, rules: Rules, max: nat, owed: set<Ptr>)
    requires Ok(t, max) && WritersOk(t) && rules.roomy && AttendedBut(t, owed)
    ensures AttendedBut(Acts(t, deeds, me, rules, max), Owed(t, deeds, me, rules, max, owed))
    decreases |deeds|
  {
    if deeds != [] {
      ActAttends(t, deeds[0], me, rules, max, owed);
      ActKeepsOk(t, deeds[0], me, rules, max);
      ActsAttend(Act(t, deeds[0], me, rules, max), deeds[1..], me, rules, max,
                 OwedAfter(t, deeds[0], me, rules, max, owed));
    }
  }

  lemma {:induction false} ActsOweOwn(t: Tables, deeds: seq<Deed>, me: Object, i: nat, rules: Rules, max: nat,
                                      owed: set<Ptr>)
    requires Ok(t, max) && rules.own && OwesOwn(t, me, i, owed)
    ensures OwesOwn(Acts(t, deeds, me, rules, max), me, i, Owed(t, deeds, me, rules, max, owed))
    decreases |deeds|
  {
    if deeds != [] {
      ActOwesOwn(t, deeds[0], me, i, rules, max, owed);
      ActKeepsOk(t, deeds[0], me, rules, max);
      ActsOweOwn(Act(t, deeds[0], me, rules, max), deeds[1..], me, i, rules, max,
                 OwedAfter(t, deeds[0], me, rules, max, owed));
    }
  }

  lemma {:induction false} ActsTend(t: Tables, deeds: seq<Deed>, me: Object, rules: Rules, max: nat, l: Ptr, c: Conn)
    requires Ok(t, max) && rules.spared == l && Tended(t, l, c)
    ensures Tended(Acts(t, deeds, me, rules, max), l, c)
    decreases |deeds|
  {
    if deeds != [] {
      ActTends(t, deeds[0], me, rules, max, l, c);
      ActKeepsOk(t, deeds[0], me, rules, max);
      ActsTend(Act(t, deeds[0], me, rules, max), deeds[1..], me, rules, max, l, c);
    }
  }
}
