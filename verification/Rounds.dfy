/** Rounds of the network thread: waiting for events, the listening socket, the read pass and
    the write pass, with the exit flag going up at any point. */
module Rounds {
  import opened Dispatch
  import opened Handlers
  import opened Passes
  import opened PollFlags
  import opened PollTables
  import opened TableLaws

  /** What the operating system and the connection hook answer: the descriptor of an accepted
      connection, or nothing; the address of the new object; whether the hook takes the
      connection; and how many bytes it queued on it. */
  datatype Accept = Refused | Accepted(fd: int, address: Ptr, taken: bool, queued: nat)

  /** How `poll` returns: interrupted, with another failure, or with flags for descriptors. */
  datatype Wait = Interrupted | Broken | Polled(flags: map<int, set<Bit>>)

  /** All that the world does in one round. The exit flag is read four times; it is up from
      reading `exitAt` on. */
  datatype Round = Round(exitAt: nat, wait: Wait, accept: Accept, received: seq<Answer>, written: seq<Answer>)

  /** The tables and the event count. */
  datatype Stage = Stage(t: Tables, count: int)

  // ----- Waiting -----

  function FlagsFor(flags: map<int, set<Bit>>, fd: int): set<Bit> {
    if fd in flags then flags[fd] else {}
  }

  function Raise(t: Tables, flags: map<int, set<Bit>>): (u: Tables)
    ensures |u.fds| == |t.fds|
  {
    t.(fds := seq(|t.fds|, i requires 0 <= i < |t.fds| => t.fds[i].(revents := FlagsFor(flags, t.fds[i].fd))))
  }

  /** `poll` counts the entries it flagged. */
  function Waited(t: Tables, wait: Wait): Stage
    requires |t.fds| == |t.socks|
  {
    match wait
    case Interrupted => Stage(t, 0)
    case Broken => Stage(t, -1)
    case Polled(flags) => Stage(Raise(t, flags), |Raised(Raise(t, flags))|)
  }

  lemma RaiseKeepsOk(t: Tables, flags: map<int, set<Bit>>, max: nat)
    requires Ok(t, max)
    ensures Ok(Raise(t, flags), max) && (WritersOk(t) ==> WritersOk(Raise(t, flags)))
  {
  }

  // ----- The listening socket -----

  /** `FindPollFD` of a socket that may be null: its entry, or the length of the table. */
  function EntryOf(t: Tables, p: Ptr): (i: nat)
    requires p != 0 ==> p in t.heap
    ensures i <= |t.fds|
  {
    if p == 0 || t.heap[p].fd == INVALID then |t.fds| else FirstFd(t.fds, t.heap[p].fd)
  }

  lemma EntryIsOwn(t: Tables, p: Ptr)
    requires HeapOk(t.heap) && PollOk(t) && p in t.heap
    ensures EntryOf(t, p) < |t.fds| <==> p in t.socks
    ensures EntryOf(t, p) < |t.fds| ==> t.socks[EntryOf(t, p)] == p && Flags(t, p) == t.fds[EntryOf(t, p)].revents
  {
    if t.heap[p].fd != INVALID {
      FirstFdIsOwn(t, p);
      if EntryOf(t, p) < |t.fds| {
        FlagsAt(t, EntryOf(t, p));
      }
    }
  }

  /** The round follows the pointer to the listening socket, if there is one. */
  predicate Followed(s: Stage, listen: Ptr, r: Round) {
    r.exitAt > 1 && s.count > 0 && listen != 0
  }

  /** Clears the flags of the listening socket, which is what an accept has dealt with. */
  function ListenerCleared(t: Tables, listen: Ptr): Tables
    requires listen != 0 ==> listen in t.heap
  {
    if EntryOf(t, listen) < |t.fds| then Cleared(t, EntryOf(t, listen)) else t
  }

  /** Takes on an accepted connection: not beyond the room for readers; the hook decides; and
      if the poll table is full the new object is deleted again. A connection that is not a new
      one, which the operating system rules out, counts as refused. */
  function Take(t: Tables, a: Accept, max: nat): Tables {
    if a.Refused? || !IsNew(t, a.address, a.fd) || 0 !in t.readers then t
    else if !a.taken || |t.socks| >= max then t.(created := t.created + 1)
    else Adopt(t, a.address, a.fd, a.queued)
  }

  /** `ProcessConnection` on the tables. */
  function Connect(t: Tables, listen: Ptr, a: Accept, max: nat): Tables
    requires listen != 0 ==> listen in t.heap
  {
    Take(ListenerCleared(t, listen), a, max)
  }

  /** Is the listening socket missing in the poll table when the round looks for it? */
  predicate Missing(s: Stage, listen: Ptr, r: Round)
    requires Followed(s, listen, r) ==> listen in s.t.heap
  {
    Followed(s, listen, r) && EntryOf(s.t, listen) == |s.t.fds|
  }

  /** A connection waits on the listening socket. */
  predicate Knocked(s: Stage, listen: Ptr, r: Round)
    requires Followed(s, listen, r) ==> listen in s.t.heap
  {
    && Followed(s, listen, r) && EntryOf(s.t, listen) < |s.t.fds|
    && RdNorm in s.t.fds[EntryOf(s.t, listen)].revents
  }

  function AfterListener(s: Stage, listen: Ptr, r: Round, max: nat): Stage
    requires Followed(s, listen, r) ==> listen in s.t.heap
  {
    if Knocked(s, listen, r) then Stage(Connect(s.t, listen, r.accept, max), s.count - 1) else s
  }

  lemma TakeKeepsOk(t: Tables, a: Accept, max: nat)
    requires Ok(t, max)
    ensures Ok(Take(t, a, max), max) && (WritersOk(t) ==> WritersOk(Take(t, a, max)))
  {
    if a.Accepted? && IsNew(t, a.address, a.fd) && |t.socks| < max {
      AdoptKeepsOk(t, a.address, a.fd, a.queued, max);
    }
  }

  lemma TakeGrows(t: Tables, a: Accept, max: nat)
    requires |t.fds| == |t.socks|
    ensures var u := Take(t, a, max);
            && |u.fds| == |u.socks| && Grown(t, u) && u.writers == t.writers
            && (forall q <- t.heap :: q in u.heap && u.heap[q] == t.heap[q])
            && (forall q <- u.heap :: (q in t.heap && u.heap[q] == t.heap[q])
                                      || (a.Accepted? && u.heap[q].pending == a.queued))
  {
  }

  lemma ConnectKeepsOk(t: Tables, listen: Ptr, a: Accept, max: nat)
    requires Ok(t, max) && listen in t.heap && listen in t.socks
    ensures Ok(Connect(t, listen, a, max), max) && (WritersOk(t) ==> WritersOk(Connect(t, listen, a, max)))
  {
    EntryIsOwn(t, listen);
    ClearedKeepsOk(t, EntryOf(t, listen), max);
    TakeKeepsOk(ListenerCleared(t, listen), a, max);
  }

  /** Every object is kept, and what was queued on it; output is attended to as before, unless the
      hook queues some. */
  lemma ConnectKeepsObjects(t: Tables, listen: Ptr, a: Accept, max: nat)
    requires PollOk(t) && listen in t.heap
    ensures var u := Connect(t, listen, a, max);
            && (forall q <- t.heap :: q in u.heap && u.heap[q] == t.heap[q])
            && (NoLost(t) && (a.Accepted? ==> a.queued == 0) ==> NoLost(u))
  {
    TakeGrows(ListenerCleared(t, listen), a, max);
  }

  /** The flags of the listening socket go down and no others, and everyone stays polled. */
  lemma ConnectIsTraced(t: Tables, listen: Ptr, a: Accept, max: nat)
    requires HeapOk(t.heap) && PollOk(t) && listen in t.heap && listen in t.socks
    ensures var u := Connect(t, listen, a, max);
            |u.fds| == |u.socks| && Traced(t, u, [listen]) && forall q <- t.socks :: q in u.socks
  {
    EntryIsOwn(t, listen);
    var c, u := ListenerCleared(t, listen), Connect(t, listen, a, max);
    ClearedIsTraced(t, EntryOf(t, listen));
    TakeGrows(c, a, max);
    GrownIsTraced(c, u);
    TracedThen(t, c, u, [listen], []);
    assert [listen] + [] == [listen];
    forall q | q in t.socks
      ensures q in u.socks
    {
      GrownTends(c, u, q);
    }
  }

  /** What becomes of a connection, said outright. If it is taken on, there is exactly one new
      object, with its descriptor and what the hook queued on it; it is a reader, and is polled
      for all reads in a new last entry. If not, there is none. Either way the flags of the
      listening socket go down, and nothing else happens. */
  ghost predicate Connected(t: Tables, u: Tables, listen: Ptr, a: Accept, ok: bool) {
    && |t.fds| == |t.socks| <= |u.socks| == |u.fds| && u.writers == t.writers
    && (forall j :: 0 <= j < |t.fds| ==>
          u.fds[j] == if t.socks[j] == listen then PollFd(t.fds[j].fd, t.fds[j].events, {}) else t.fds[j])
    && if ok then
         && a.Accepted? && a.address !in t.heap
         && u.heap == t.heap[a.address := Conn(a.fd, a.queued, t.created)]
         && (forall q :: q != 0 ==> (q in u.readers <==> q in t.readers || q == a.address))
         && u.socks == t.socks + [a.address]
         && u.fds[|t.fds|] == PollFd(a.fd, {In, RdNorm, RdBand, Pri}, {})
       else
         u.heap == t.heap && u.readers == t.readers && u.socks == t.socks
  }

  /** It is taken on exactly if there was one, under a descriptor and at an address not in use,
      the hook took it, and there is room for it. */
  predicate TakesOn(t: Tables, a: Accept, max: nat) {
    && a.Accepted? && a.address != 0 && a.address !in t.heap
    && a.fd >= 0 && (forall q <- t.heap :: t.heap[q].fd != a.fd)
    && a.taken && 0 in t.readers && |t.socks| < max
  }

  lemma ConnectIsConnected(t: Tables, listen: Ptr, a: Accept, max: nat)
    requires Ok(t, max) && listen in t.heap
    ensures Connected(t, Connect(t, listen, a, max), listen, a, TakesOn(t, a, max))
  {
    EntryIsOwn(t, listen);
    if TakesOn(t, a, max) {
      AllocateKeepsOk(t, a.address, a.fd, a.queued, max);
      FillKeepsSlots(t.readers, a.address, Allocate(t, a.address, a.fd, a.queued).heap);
    }
  }

  /** A connection hook that queues output before the socket is registered gets no write
      interest for it: output stays attended to exactly when it queued none. */
  lemma AdoptNoLostIff(t: Tables, p: Ptr, fd: int, queued: nat, max: nat)
    requires Ok(t, max) && IsNew(t, p, fd) && |t.socks| < max
    ensures NoLost(Adopt(t, p, fd, queued)) <==> NoLost(t) && queued == 0
  {
    var u := Adopt(t, p, fd, queued);
    assert p in u.heap && p !in t.writers;
    assert forall q <- t.heap :: q in u.heap && u.heap[q] == t.heap[q];
  }

  // ----- The passes -----

  function NoPass(s: Stage): Outcome {
    Outcome(s.t, s.count, false, [], [], [])
  }

  /** The read pass of a round, if there is one. */
  function Reads(s: Stage, r: Round, rules: Rules, max: nat): (o: Outcome)
    requires Ok(s.t, max)
    ensures Ok(o.t, max)
  {
    if r.exitAt > 2 && s.count > 0 then Pass(s.t, s.count, Reading, r.received, rules, max) else NoPass(s)
  }

  /** The write pass, if there is one. */
  function Writes(s: Stage, r: Round, rules: Rules, max: nat): (o: Outcome)
    requires Ok(s.t, max)
    ensures Ok(o.t, max)
  {
    if r.exitAt > 3 && s.count > 0 then Pass(s.t, s.count, Writing, r.written, rules, max) else NoPass(s)
  }

  function AfterReads(s: Stage, r: Round, rules: Rules, max: nat): (u: Stage)
    requires Ok(s.t, max)
    ensures Ok(u.t, max)
  {
    Stage(Reads(s, r, rules, max).t, Reads(s, r, rules, max).count)
  }

  function AfterWrites(s: Stage, r: Round, rules: Rules, max: nat): (u: Stage)
    requires Ok(s.t, max)
    ensures Ok(u.t, max)
  {
    Stage(Writes(s, r, rules, max).t, Writes(s, r, rules, max).count)
  }

  /** What a round does after the wait. A missing listening socket ends it. */
  function Events(s: Stage, listen: Ptr, r: Round, rules: Rules, max: nat): (u: Stage)
    requires Ok(s.t, max) && (Followed(s, listen, r) ==> listen in s.t.heap)
    ensures Ok(u.t, max)
  {
    if Missing(s, listen, r) then s
    else
      ListenerKeepsOk(s, listen, r, max);
      AfterWrites(AfterReads(AfterListener(s, listen, r, max), r, rules, max), r, rules, max)
  }

  /** The round does not follow the pointer to a listening socket that has been deleted. */
  predicate FollowsAlive(t: Tables, listen: Ptr, r: Round)
    requires |t.fds| == |t.socks|
  {
    Followed(Waited(t, r.wait), listen, r) ==> listen in t.heap
  }

  /** `Run`: one round. */
  function RunOnce(s: Stage, listen: Ptr, r: Round, rules: Rules, max: nat): (u: Stage)
    requires Ok(s.t, max) && FollowsAlive(s.t, listen, r)
    ensures Ok(u.t, max)
  {
    if r.exitAt == 0 then s
    else
      WaitKeepsOk(s.t, r.wait, max);
      Events(Waited(s.t, r.wait), listen, r, rules, max)
  }

  // ----- What every round keeps -----

  lemma WaitKeepsOk(t: Tables, wait: Wait, max: nat)
    requires Ok(t, max)
    ensures var w := Waited(t, wait);
            && Ok(w.t, max) && w.t == t.(fds := w.t.fds) && (WritersOk(t) ==> WritersOk(w.t))
            && (w.count > 0 ==> wait.Polled? && |Raised(w.t)| == w.count)
  {
    if wait.Polled? {
      RaiseKeepsOk(t, wait.flags, max);
    }
  }

  lemma ListenerKeepsOk(s: Stage, listen: Ptr, r: Round, max: nat)
    requires Ok(s.t, max) && (Followed(s, listen, r) ==> listen in s.t.heap)
    ensures Ok(AfterListener(s, listen, r, max).t, max)
    ensures WritersOk(s.t) ==> WritersOk(AfterListener(s, listen, r, max).t)
  {
    if Knocked(s, listen, r) {
      EntryIsOwn(s.t, listen);
      ConnectKeepsOk(s.t, listen, r.accept, max);
    }
  }

  /** If handlers never let the poll table overflow, the writers stay consistent with it. */
  lemma RoundKeepsWriters(s: Stage, listen: Ptr, r: Round, rules: Rules, max: nat)
    requires Ok(s.t, max) && WritersOk(s.t) && rules.roomy && FollowsAlive(s.t, listen, r)
    ensures WritersOk(RunOnce(s, listen, r, rules, max).t)
  {
    if r.exitAt > 0 {
      var w := Waited(s.t, r.wait);
      WaitKeepsOk(s.t, r.wait, max);
      ListenerKeepsOk(w, listen, r, max);
      var a := AfterListener(w, listen, r, max);
      var b := AfterReads(a, r, rules, max);
      ReadsKeepWriters(a, r, rules, max);
      WritesKeepWriters(b, r, rules, max);
    }
  }

  /** And every reader stays polled. */
  lemma RoundKeepsReaders(s: Stage, listen: Ptr, r: Round, rules: Rules, max: nat)
    requires Ok(s.t, max) && ReadersPolled(s.t) && rules.roomy && FollowsAlive(s.t, listen, r)
    ensures ReadersPolled(RunOnce(s, listen, r, rules, max).t)
  {
    if r.exitAt > 0 {
      var w := Waited(s.t, r.wait);
      WaitKeepsOk(s.t, r.wait, max);
      ListenerKeepsReaders(w, listen, r, max);
      ListenerKeepsOk(w, listen, r, max);
      var a := AfterListener(w, listen, r, max);
      var b := AfterReads(a, r, rules, max);
      if r.exitAt > 2 && a.count > 0 {
        PassKeepsReaders(a.t, a.count, Reading, r.received, rules, max);
      }
      if r.exitAt > 3 && b.count > 0 {
        PassKeepsReaders(b.t, b.count, Writing, r.written, rules, max);
      }
    }
  }

  lemma ListenerKeepsReaders(s: Stage, listen: Ptr, r: Round, max: nat)
    requires Ok(s.t, max) && (Followed(s, listen, r) ==> listen in s.t.heap) && ReadersPolled(s.t)
    ensures ReadersPolled(AfterListener(s, listen, r, max).t)
  {
    if Knocked(s, listen, r) {
      WidenedKeepsReaders(s.t, ListenerCleared(s.t, listen));
      TakeKeepsReaders(ListenerCleared(s.t, listen), r.accept, max);
    }
  }

  lemma TakeKeepsReaders(t: Tables, a: Accept, max: nat)
    requires HeapOk(t.heap) && SlotsOk(t.readers, t.heap) && |t.fds| == |t.socks| && ReadersPolled(t)
    ensures ReadersPolled(Take(t, a, max))
  {
    var u := Take(t, a, max);
    if a.Accepted? && u.socks != t.socks {
      var p := a.address;
      FillKeepsSlots(t.readers, p, Allocate(t, p, a.fd, a.queued).heap);
      WidenedKeepsReaders(t, u.(readers := t.readers));
      assert u.socks[|t.socks|] == p && READ_BITS <= u.fds[|t.fds|].events;
      forall q | q in u.readers && q != 0
        ensures Polls(u, q, READ_BITS)
      {
        if q in t.readers {
          assert Polls(u.(readers := t.readers), q, READ_BITS);
        }
      }
    }
  }

  lemma ReadsKeepWriters(s: Stage, r: Round, rules: Rules, max: nat)
    requires Ok(s.t, max) && WritersOk(s.t) && rules.roomy
    ensures WritersOk(AfterReads(s, r, rules, max).t)
    ensures NoLost(s.t) && (r.exitAt > 2 && s.count > 0 ==> MindfulPass(s.t, s.count, r.received, rules, max)) ==>
              NoLost(AfterReads(s, r, rules, max).t)
  {
    if r.exitAt > 2 && s.count > 0 {
      PassKeepsWriters(s.t, s.count, Reading, r.received, rules, max);
      if NoLost(s.t) && MindfulPass(s.t, s.count, r.received, rules, max) {
        PassAttends(s.t, s.count, Reading, r.received, rules, max);
      }
    }
  }

  lemma WritesKeepWriters(s: Stage, r: Round, rules: Rules, max: nat)
    requires Ok(s.t, max) && WritersOk(s.t) && rules.roomy
    ensures WritersOk(AfterWrites(s, r, rules, max).t)
    ensures NoLost(s.t) ==> NoLost(AfterWrites(s, r, rules, max).t)
  {
    if r.exitAt > 3 && s.count > 0 {
      PassKeepsWriters(s.t, s.count, Writing, r.written, rules, max);
      if NoLost(s.t) {
        PassAttends(s.t, s.count, Writing, r.written, rules, max);
      }
    }
  }

  /** All handlers of the round are mindful. */
  ghost predicate MindfulRound(t: Tables, listen: Ptr, r: Round, rules: Rules, max: nat)
    requires Ok(t, max) && FollowsAlive(t, listen, r)
  {
    var a := AfterListener(Waited(t, r.wait), listen, r, max);
    r.exitAt > 2 && a.count > 0 ==> MindfulPass(a.t, a.count, r.received, rules, max)
  }

  /** Handlers that keep to their own sockets are. */
  lemma OwnRoundIsMindful(t: Tables, listen: Ptr, r: Round, rules: Rules, max: nat)
    requires Ok(t, max) && FollowsAlive(t, listen, r) && rules.own
    ensures MindfulRound(t, listen, r, rules, max)
  {
    var a := AfterListener(Waited(t, r.wait), listen, r, max);
    OwnPassIsMindful(a.t, a.count, r.received, rules, max);
  }

  /** No output is lost over a round in which handlers are mindful and never let the poll table
      overflow, and the connection hook queues nothing. */
  lemma RoundAttends(s: Stage, listen: Ptr, r: Round, rules: Rules, max: nat)
    requires Ok(s.t, max) && WritersOk(s.t) && NoLost(s.t) && FollowsAlive(s.t, listen, r)
    requires rules.roomy && (r.accept.Accepted? ==> r.accept.queued == 0) && MindfulRound(s.t, listen, r, rules, max)
    ensures NoLost(RunOnce(s, listen, r, rules, max).t)
  {
    if r.exitAt > 0 {
      var w := Waited(s.t, r.wait);
      WaitKeepsOk(s.t, r.wait, max);
      if Knocked(w, listen, r) {
        ConnectKeepsObjects(w.t, listen, r.accept, max);
      }
      ListenerKeepsOk(w, listen, r, max);
      var a := AfterListener(w, listen, r, max);
      ReadsKeepWriters(a, r, rules, max);
      WritesKeepWriters(AfterReads(a, r, rules, max), r, rules, max);
    }
  }

  // ----- The event count -----

  /** The event count covers the raised flags. So when it is zero, where a pass stops or is not
      even started, no flag is up. */
  predicate Covered(s: Stage)
    requires |s.t.fds| == |s.t.socks|
  {
    |Raised(s.t)| <= s.count
  }

  lemma NothingLeft(s: Stage, x: Ptr)
    requires |s.t.fds| == |s.t.socks| && Covered(s) && s.count <= 0
    ensures Raised(s.t) == {} && Flags(s.t, x) == {}
  {
    assert Raised(s.t) == {};
    NoneRaised(s.t, x);
  }

  lemma AcceptCovers(s: Stage, listen: Ptr, r: Round, max: nat)
    requires Ok(s.t, max) && (Followed(s, listen, r) ==> listen in s.t.heap) && Covered(s)
    ensures Ok(AfterListener(s, listen, r, max).t, max) && Covered(AfterListener(s, listen, r, max))
  {
    ListenerKeepsOk(s, listen, r, max);
    if Knocked(s, listen, r) {
      EntryIsOwn(s.t, listen);
      ConnectIsTraced(s.t, listen, r.accept, max);
      var u := Connect(s.t, listen, r.accept, max);
      TracedLowers(s.t, u, [listen]);
      assert listen in Raised(s.t) && listen in [listen];
      SubsetCard(Raised(u), Raised(s.t) - {listen});
    }
  }

  lemma NoPassIsComplete(s: Stage, mask: set<Bit>)
    requires |s.t.fds| == |s.t.socks| && Covered(s) && s.count <= 0
    ensures Complete(s.t, s.count, mask, NoPass(s))
  {
    forall x: Ptr
      ensures Flags(s.t, x) == {}
    {
      NothingLeft(s, x);
    }
  }

  lemma ReadsCover(s: Stage, r: Round, rules: Rules, max: nat)
    requires Ok(s.t, max) && Covered(s)
    ensures Covered(AfterReads(s, r, rules, max))
    ensures r.exitAt > 2 ==> Complete(s.t, s.count, READ_BITS, Reads(s, r, rules, max))
  {
    if r.exitAt > 2 {
      if s.count > 0 {
        PassIsComplete(s.t, s.count, Reading, r.received, rules, max);
      } else {
        NoPassIsComplete(s, READ_BITS);
      }
    }
  }

  lemma WritesCover(s: Stage, r: Round, rules: Rules, max: nat)
    requires Ok(s.t, max) && Covered(s)
    ensures Covered(AfterWrites(s, r, rules, max))
    ensures r.exitAt > 3 ==> Complete(s.t, s.count, Mask(Writing), Writes(s, r, rules, max))
  {
    if r.exitAt > 3 {
      if s.count > 0 {
        PassIsComplete(s.t, s.count, Writing, r.written, rules, max);
      } else {
        NoPassIsComplete(s, Mask(Writing));
      }
    }
  }

  /** From the wait to the end of every round in which `poll` was not interrupted and did not
      fail, whatever the exit flag does. */
  lemma RoundCovers(s: Stage, listen: Ptr, r: Round, rules: Rules, max: nat)
    requires Ok(s.t, max) && FollowsAlive(s.t, listen, r) && r.exitAt > 0 && r.wait.Polled?
    ensures Covered(Waited(s.t, r.wait)) && Covered(RunOnce(s, listen, r, rules, max))
  {
    var w := Waited(s.t, r.wait);
    WaitKeepsOk(s.t, r.wait, max);
    AcceptCovers(w, listen, r, max);
    var a := AfterListener(w, listen, r, max);
    ReadsCover(a, r, rules, max);
    WritesCover(AfterReads(a, r, rules, max), r, rules, max);
  }

  /** In the others nothing happens. */
  lemma RoundIsIdle(s: Stage, listen: Ptr, r: Round, rules: Rules, max: nat)
    requires Ok(s.t, max) && r.exitAt > 0 && !r.wait.Polled?
    ensures FollowsAlive(s.t, listen, r)
    ensures RunOnce(s, listen, r, rules, max) == Waited(s.t, r.wait) && Waited(s.t, r.wait).t == s.t
    ensures Waited(s.t, r.wait).count <= 0
  {
  }

  /** A round that runs to its end. */
  predicate Undisturbed(t: Tables, listen: Ptr, r: Round)
    requires |t.fds| == |t.socks| && FollowsAlive(t, listen, r)
  {
    r.exitAt > 3 && r.wait.Polled? && !Missing(Waited(t, r.wait), listen, r)
  }

  /** Its parts: the listening socket is dealt with, then a complete read pass and a complete write
      pass follow, whether or not the event count was left to start them. */
  lemma RoundIsComplete(s: Stage, listen: Ptr, r: Round, rules: Rules, max: nat)
    requires Ok(s.t, max) && FollowsAlive(s.t, listen, r) && Undisturbed(s.t, listen, r)
    ensures var w := Waited(s.t, r.wait);
            var a := AfterListener(w, listen, r, max);
            && Ok(a.t, max) && Traced(w.t, a.t, if Knocked(w, listen, r) then [listen] else [])
            && var b := AfterReads(a, r, rules, max);
               && RunOnce(s, listen, r, rules, max) == AfterWrites(b, r, rules, max)
               && Complete(a.t, a.count, READ_BITS, Reads(a, r, rules, max))
               && Complete(b.t, b.count, Mask(Writing), Writes(b, r, rules, max))
  {
    var w := Waited(s.t, r.wait);
    WaitKeepsOk(s.t, r.wait, max);
    AcceptCovers(w, listen, r, max);
    AcceptIsTraced(w, listen, r, max);
    var a := AfterListener(w, listen, r, max);
    ReadsCover(a, r, rules, max);
    WritesCover(AfterReads(a, r, rules, max), r, rules, max);
  }

  lemma AcceptIsTraced(s: Stage, listen: Ptr, r: Round, max: nat)
    requires Ok(s.t, max) && (Followed(s, listen, r) ==> listen in s.t.heap)
    ensures var a := AfterListener(s, listen, r, max);
            |a.t.fds| == |a.t.socks| && Traced(s.t, a.t, if Knocked(s, listen, r) then [listen] else [])
  {
    if Knocked(s, listen, r) {
      EntryIsOwn(s.t, listen);
      ConnectIsTraced(s.t, listen, r.accept, max);
    } else {
      GrownIsTraced(s.t, s.t);
    }
  }

  /** What becomes, in such a round, of a socket that `poll` raised a flag on, and that no handler
      removes and no failure: it is the listening socket and was dealt with; or it is served in
      the read pass, if the flag is a read flag and no removal moves it behind the cursor; or in
      the write pass, likewise, if it was not served before. */
  lemma RoundServes(s: Stage, listen: Ptr, r: Round, rules: Rules, max: nat, x: Ptr)
    requires Ok(s.t, max) && FollowsAlive(s.t, listen, r) && Undisturbed(s.t, listen, r)
    ensures var w := Waited(s.t, r.wait);
            var a := AfterListener(w, listen, r, max);
            Ok(a.t, max) &&
            var input, b := Reads(a, r, rules, max), AfterReads(a, r, rules, max);
            var output := Writes(b, r, rules, max);
            && (Flags(w.t, x) * {In, RdNorm, RdBand, Pri} != {} && x !in input.removed ==>
                  || (x == listen && Knocked(w, listen, r))
                  || (x in input.served <==> input.stopped || x !in input.skipped))
            && (Flags(w.t, x) * {Out, WrNorm, WrBand, Pri} != {} && x !in input.removed && x !in output.removed ==>
                  || (x == listen && Knocked(w, listen, r))
                  || x in input.served
                  || (x in output.served <==> output.stopped || x !in output.skipped))
            && |input.skipped| <= |input.removed| && |output.skipped| <= |output.removed|
  {
    RoundIsComplete(s, listen, r, rules, max);
    var w := Waited(s.t, r.wait);
    var a := AfterListener(w, listen, r, max);
    assert Flags(a.t, x) == if Knocked(w, listen, r) && x == listen then {} else Flags(w.t, x);
    assert Settles(a.t, Reads(a, r, rules, max));
  }

  // ----- Where a round stops -----

  /** `poll` puts the flags it answers into all entries, and nothing else, and counts the entries
      that got one. */
  lemma WaitComesTo(t: Tables, flags: map<int, set<Bit>>, max: nat)
    requires Ok(t, max)
    ensures var w := Waited(t, Polled(flags));
            && w.t == t.(fds := w.t.fds) && |w.t.fds| == |t.fds|
            && (forall i :: 0 <= i < |t.fds| ==>
                  var e := t.fds[i];
                  w.t.fds[i] == PollFd(e.fd, e.events, if e.fd in flags then flags[e.fd] else {}))
            && w.count == |set i | 0 <= i < |t.fds| && w.t.fds[i].revents != {}|
  {
    var u := Raise(t, flags);
    var entries := set i | 0 <= i < |t.fds| && u.fds[i].revents != {};
    RaisedAreEntries(u, entries);
    SocketsOfEntries(entries, u.socks);
  }

  lemma RaisedAreEntries(u: Tables, entries: set<int>)
    requires PollOk(u) && entries == set i | 0 <= i < |u.fds| && u.fds[i].revents != {}
    ensures Raised(u) == set i | i in entries :: u.socks[i]
  {
    forall i | 0 <= i < |u.fds|
      ensures Flags(u, u.socks[i]) == u.fds[i].revents
    {
      FlagsAt(u, i);
    }
  }

  lemma SomeMember<T>(s: set<T>) returns (x: T)
    requires s != {}
    ensures x in s
  {
    x :| x in s;
  }

  lemma {:induction false} SocketsOfEntries(entries: set<int>, socks: seq<Ptr>)
    requires forall i :: i in entries ==> 0 <= i < |socks|
    requires forall i, j :: 0 <= i < j < |socks| ==> socks[i] != socks[j]
    ensures |set i | i in entries :: socks[i]| == |entries|
  {
    if entries != {} {
      var i := SomeMember(entries);
      SocketsOfEntries(entries - {i}, socks);
      assert (set j | j in entries :: socks[j]) == (set j | j in entries - {i} :: socks[j]) + {socks[i]};
    }
  }

  /** The exit flag is read before each part: before the wait, before the listening socket is looked
      at, before the read pass and before the write pass. */
  lemma RoundStopsAtExit(s: Stage, listen: Ptr, r: Round, rules: Rules, max: nat, w: Stage)
    requires Ok(s.t, max) && FollowsAlive(s.t, listen, r) && w == Waited(s.t, r.wait) && Ok(w.t, max)
    ensures var u := RunOnce(s, listen, r, rules, max);
            && (r.exitAt == 0 ==> u == s)
            && (r.exitAt == 1 ==> u == w)
            && (r.exitAt == 2 ==> u == AfterListener(w, listen, r, max))
  {
  }

  lemma RoundStopsBeforeWrites(s: Stage, listen: Ptr, r: Round, rules: Rules, max: nat, w: Stage, a: Stage)
    requires Ok(s.t, max) && FollowsAlive(s.t, listen, r) && w == Waited(s.t, r.wait) && Ok(w.t, max)
    requires a == AfterListener(w, listen, r, max) && Ok(a.t, max) && !Missing(w, listen, r)
    ensures r.exitAt == 3 ==> RunOnce(s, listen, r, rules, max) == AfterReads(a, r, rules, max)
    ensures r.exitAt == 3 && a.count > 0 ==>
              var o := Pass(a.t, a.count, Reading, r.received, rules, max);
              RunOnce(s, listen, r, rules, max) == Stage(o.t, o.count)
  {
  }

  /** The listening socket is looked for when there are events; if it is not polled the round ends
      there. A connection waits on it just when `RdNorm` is up. */
  lemma ListenerIsLookedFor(s: Stage, listen: Ptr, r: Round, rules: Rules, max: nat)
    requires Ok(s.t, max) && FollowsAlive(s.t, listen, r)
    ensures var w := Waited(s.t, r.wait);
            && Ok(w.t, max)
            && (Followed(w, listen, r) <==> r.exitAt > 1 && w.count > 0 && listen != 0)
            && (Missing(w, listen, r) <==> r.exitAt > 1 && w.count > 0 && listen != 0 && listen !in w.t.socks)
            && (Missing(w, listen, r) ==> RunOnce(s, listen, r, rules, max) == w)
            && (Knocked(w, listen, r) <==>
                  r.exitAt > 1 && w.count > 0 && listen != 0 && listen in w.t.socks && RdNorm in Flags(w.t, listen))
            && AfterListener(w, listen, r, max)
               == if Knocked(w, listen, r) then Stage(Connect(w.t, listen, r.accept, max), w.count - 1) else w
  {
    var w := Waited(s.t, r.wait);
    WaitKeepsOk(s.t, r.wait, max);
    if Followed(w, listen, r) {
      EntryIsOwn(w.t, listen);
    }
  }

  // ----- The listening socket survives -----

  /** `poll` raises read flags on the descriptor only together with `RdNorm`. */
  predicate Honest(r: Round, fd: int) {
    r.wait.Polled? && FlagsFor(r.wait.flags, fd) * READ_BITS != {} ==> RdNorm in FlagsFor(r.wait.flags, fd)
  }

  /** Once the round has looked at the listening socket, the read pass does not. */
  lemma ListenerIsCleared(s: Stage, listen: Ptr, r: Round, max: nat, c: Conn)
    requires Ok(s.t, max) && Tended(s.t, listen, c)
    requires s.count > 0 && Flags(s.t, listen) * READ_BITS != {} ==> RdNorm in Flags(s.t, listen)
    ensures var a := AfterListener(s, listen, r, max);
            && Ok(a.t, max) && Tended(a.t, listen, c) && !Missing(s, listen, r)
            && (r.exitAt > 1 && a.count > 0 ==> Flags(a.t, listen) * READ_BITS == {})
  {
    EntryIsOwn(s.t, listen);
    ListenerKeepsOk(s, listen, r, max);
    if Knocked(s, listen, r) {
      ConnectKeepsObjects(s.t, listen, r.accept, max);
      ConnectIsTraced(s.t, listen, r.accept, max);
      assert Flags(AfterListener(s, listen, r, max).t, listen) == {};
    }
  }

  lemma ReadsTend(s: Stage, r: Round, rules: Rules, max: nat, l: Ptr, c: Conn)
    requires Ok(s.t, max) && rules.spared == l && Tended(s.t, l, c)
    requires r.exitAt > 2 && s.count > 0 ==> Flags(s.t, l) * READ_BITS == {}
    ensures Tended(AfterReads(s, r, rules, max).t, l, c)
  {
    if r.exitAt > 2 && s.count > 0 {
      PassTends(s.t, s.count, Reading, r.received, rules, max, l, c);
    }
  }

  lemma WritesTend(s: Stage, r: Round, rules: Rules, max: nat, l: Ptr, c: Conn)
    requires Ok(s.t, max) && rules.spared == l && Tended(s.t, l, c)
    ensures Tended(AfterWrites(s, r, rules, max).t, l, c)
  {
    if r.exitAt > 3 && s.count > 0 {
      PassTends(s.t, s.count, Writing, r.written, rules, max, l, c);
    }
  }

  /** The listening socket survives a round in which no handler writes to it or removes it and
      `poll` is honest about it; and the round finds it. */
  lemma RoundTends(s: Stage, listen: Ptr, r: Round, rules: Rules, max: nat, c: Conn)
    requires Ok(s.t, max) && rules.spared == listen && Tended(s.t, listen, c) && Honest(r, c.fd)
    ensures Tended(RunOnce(s, listen, r, rules, max).t, listen, c)
    ensures r.exitAt > 0 ==> !Missing(Waited(s.t, r.wait), listen, r)
  {
    if r.exitAt > 0 {
      var w := Waited(s.t, r.wait);
      WaitKeepsOk(s.t, r.wait, max);
      WaitIsHonest(s.t, listen, r, c);
      ListenerIsCleared(w, listen, r, max, c);
      var a := AfterListener(w, listen, r, max);
      ReadsTend(a, r, rules, max, listen, c);
      WritesTend(AfterReads(a, r, rules, max), r, rules, max, listen, c);
    }
  }

  /** The same round, with other reports of the receivers. */
  function WithReports(r: Round, received: seq<Answer>): Round {
    r.(received := received)
  }

  lemma ListenerCanBeLost(s: Stage, listen: Ptr, r: Round, rules: Rules, max: nat, c: Conn)
    returns (received: seq<Answer>)
    requires Ok(s.t, max) && Tended(s.t, listen, c) && !Honest(r, c.fd) && r.exitAt > 2
    ensures Deleted(RunOnce(s, listen, WithReports(r, received), rules, max).t, Object(listen, c.id))
  {
    var w, x := Waited(s.t, r.wait), Object(listen, c.id);
    var i := FirstSlot(s.t.socks, listen);
    WaitKeepsOk(s.t, r.wait, max);
    EntryIsOwn(w.t, listen);
    FlagsAt(w.t, i);
    assert listen in Raised(w.t) && |Raised(w.t)| > 0;
    received := DueSocketCanBeLost(w.t, w.count, rules, max, x);
    var q := WithReports(r, received);
    assert AfterListener(w, listen, q, max) == w && !Missing(w, listen, q);
    var a := AfterReads(w, q, rules, max);
    assert Deleted(a.t, x);
    if q.exitAt > 3 && a.count > 0 {
      PassLeavesDeleted(a.t, a.count, Writing, q.written, rules, max, x);
    }
  }

  lemma EarlyExitTends(s: Stage, listen: Ptr, r: Round, rules: Rules, max: nat, c: Conn)
    requires Ok(s.t, max) && Tended(s.t, listen, c) && !Honest(r, c.fd) && r.exitAt <= 2
    ensures Tended(RunOnce(s, listen, r, rules, max).t, listen, c)
  {
    var w := Waited(s.t, r.wait);
    WaitKeepsOk(s.t, r.wait, max);
    EntryIsOwn(w.t, listen);
    FlagsAt(w.t, FirstSlot(s.t.socks, listen));
  }

  /** Exactly when the listening socket can be lost that handlers spare: some reports of the
      receivers cost it its life if and only if `poll` raises a read flag on it without `RdNorm`
      and the exit flag is still down when the read pass is due. */
  lemma ListenerIsLostIff(s: Stage, listen: Ptr, r: Round, rules: Rules, max: nat, c: Conn)
    requires Ok(s.t, max) && rules.spared == listen && Tended(s.t, listen, c)
    ensures (exists received :: !Tended(RunOnce(s, listen, WithReports(r, received), rules, max).t, listen, c))
       <==> !Honest(r, c.fd) && r.exitAt > 2
  {
    if !Honest(r, c.fd) && r.exitAt > 2 {
      var received := ListenerCanBeLost(s, listen, r, rules, max, c);
      assert !Tended(RunOnce(s, listen, WithReports(r, received), rules, max).t, listen, c);
    } else {
      forall received
        ensures Tended(RunOnce(s, listen, WithReports(r, received), rules, max).t, listen, c)
      {
        if Honest(r, c.fd) {
          RoundTends(s, listen, WithReports(r, received), rules, max, c);
        } else {
          EarlyExitTends(s, listen, WithReports(r, received), rules, max, c);
        }
      }
    }
  }

  lemma WaitIsHonest(t: Tables, l: Ptr, r: Round, c: Conn)
    requires PollOk(t) && Tended(t, l, c) && Honest(r, c.fd)
    ensures var w := Waited(t, r.wait);
            && PollOk(w.t) && Tended(w.t, l, c)
            && (w.count > 0 && Flags(w.t, l) * READ_BITS != {} ==> RdNorm in Flags(w.t, l))
  {
    var w := Waited(t, r.wait);
    var i := FirstSlot(t.socks, l);
    assert t.socks[i] == l && t.fds[i].fd == c.fd;
    FlagsAt(w.t, i);
  }

  /** Otherwise it need not: here `poll` raises `RdBand` alone on the listening socket, the only
      entry. Nobody accepts, the read pass takes it for a connection, receiving from it fails,
      and it is deleted. The thread's pointer to it stays, and the next round follows it. */
  lemma ListenerIsDeleted()
    ensures var t := OneListener();
            var r := Round(4, Polled(map[3 := {RdBand}]), Refused, [Answer(False, [], true, 0)], []);
            var u := RunOnce(Stage(t, 0), 1, r, Rules(true, true, 1), 1);
            && Ok(t, 1) && WritersOk(t) && Tended(t, 1, Conn(3, 0, 0))
            && u == Stage(Tables([], [], [0], [0], map[], 1), 0) && 1 !in u.t.heap
  {
    var r := Round(4, Polled(map[3 := {RdBand}]), Refused, [Answer(False, [], true, 0)], []);
    assert READ_BITS * WRITE_BITS == {};
    ListenerIsPolled(r);
    ListenerIsServed();
    var w := Stage(OneListener().(fds := [PollFd(3, READ_BITS, {RdBand})]), 1);
    assert AfterListener(w, 1, r, 1) == w;
    assert AfterReads(w, r, Rules(true, true, 1), 1) == Stage(Tables([], [], [0], [0], map[], 1), 0);
  }

  lemma ListenerIsPolled(r: Round)
    requires r.wait == Polled(map[3 := {RdBand}]) && r.exitAt == 4
    ensures var w := Stage(OneListener().(fds := [PollFd(3, READ_BITS, {RdBand})]), 1);
            Waited(OneListener(), r.wait) == w && !Missing(w, 1, r) && !Knocked(w, 1, r)
  {
    var w := OneListener().(fds := [PollFd(3, READ_BITS, {RdBand})]);
    assert Raise(OneListener(), r.wait.flags) == w;
    FlagsAt(w, 0);
    assert Raised(w) == {1};
    assert FirstFd(w.fds, 3) == 0;
  }

  function OneListener(): Tables {
    Tables([PollFd(3, READ_BITS, {})], [1], [0], [0], map[1 := Conn(3, 0, 0)], 1)
  }

  lemma ListenerIsServed()
    ensures var w := OneListener().(fds := [PollFd(3, READ_BITS, {RdBand})]);
            Ok(w, 1) &&
            var o := Pass(w, 1, Reading, [Answer(False, [], true, 0)], Rules(true, true, 1), 1);
            o.t == Tables([], [], [0], [0], map[], 1) && o.count == 0
  {
    var w := OneListener().(fds := [PollFd(3, READ_BITS, {RdBand})]);
    var c := Cleared(w, 0);
    assert RdBand in {RdBand} * READ_BITS;
    assert c == OneListener();
    assert FirstFd(c.fds, 3) == 0 && FirstSlot(c.readers, 1) == 1 && FirstSlot(c.writers, 1) == 1;
    assert Drop(c, 1) == Tables([], [], [0], [0], map[], 1);
  }
}
