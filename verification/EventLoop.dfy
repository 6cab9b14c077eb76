/** The event loop of the network thread, in place. Everything that the network, the operating
    system and the handlers do is given as data, and every method is proved to do to the tables
    exactly what `Handlers`, `Dispatch`, `Passes` and `Rounds` say. */
module EventLoop {
  import opened Dispatch
  import opened Handlers
  import opened Life
  import opened NetworkThread
  import opened Passes
  import opened PollFlags
  import opened PollTables
  import opened Rounds
  import opened TableLaws

  // ----- Handlers -----

  /** Queues output on a socket, or sends some: `k` bytes are queued now. */
  method SetPending(n: Thread, q: Ptr, k: nat)
    requires n.Shaped() && q in n.heap
    modifies n`heap
    ensures n.Shaped() && n.View() == WithPending(old(n.View()), q, k)
  {
    n.heap := n.heap[q := n.heap[q].(pending := k)];
  }

  /** One deed of a handler, through the operations of the thread. */
  method Perform(n: Thread, d: Deed, me: Object, rules: Rules)
    requires n.Shaped() && Ok(n.View(), n.max) && Allowed(n.View(), d, me, rules, n.max)
    modifies n`pollCount, n`readCount, n`writeCount, n`heap, n`created,
             n.pollFds, n.pollSockets, n.readSockets, n.writeSockets
    ensures n.Shaped() && n.View() == Act(old(n.View()), d, me, rules, n.max)
  {
    var done: bool;
    match d
    case Queue(q, bytes) => SetPending(n, q, bytes);
    case Check(q) => done := n.CheckWriteOperation(q);
    case Remove(q) => done := n.OnReadSocketError(q);
    case Create(q, fd) => n.NewSocket(q, fd, 0);
    case Listen(q) => done := n.AddReadOperation(q);
  }

  /** A handler does all the deeds that are possible and keep the rules, and answers `ok`. */
  method OnMessage(n: Thread, p: Ptr, deeds: seq<Deed>, ok: bool, me: Object, rules: Rules)
    returns (answer: bool)
    requires n.Shaped() && Ok(n.View(), n.max)
    modifies n`pollCount, n`readCount, n`writeCount, n`heap, n`created,
             n.pollFds, n.pollSockets, n.readSockets, n.writeSockets
    ensures n.Shaped() && n.View() == Acts(old(n.View()), deeds, me, rules, n.max) && answer == ok
  {
    var rest := deeds;
    while rest != []
      invariant n.Shaped() && Ok(n.View(), n.max)
      invariant Acts(old(n.View()), deeds, me, rules, n.max) == Acts(n.View(), rest, me, rules, n.max)
      decreases |rest|
    {
      ActKeepsOk(n.View(), rest[0], me, rules, n.max);
      if Allowed(n.View(), rest[0], me, rules, n.max) {
        Perform(n, rest[0], me, rules);
      }
      rest := rest[1..];
    }
    answer := ok;
  }

  // ----- Reading -----

  /** What is left to do when the handler has returned: remove the socket, or see to its output.
      Both only if the pointer is still in the entry it was taken from. */
  method AfterHandler(n: Thread, i: nat, p: Ptr, a: Answer)
    requires n.Shaped() && Ok(n.View(), n.max) && i < n.max && p != 0
    modifies n`pollCount, n`readCount, n`writeCount, n`heap,
             n.pollFds, n.pollSockets, n.readSockets, n.writeSockets
    ensures n.Shaped() && n.View() == Reaction(old(n.View()), i, p, a)
  {
    assert n.pollSockets[i] != 0 ==> i < n.pollCount && n.View().socks[i] == n.pollSockets[i];
    assert i < n.pollCount ==> n.View().socks[i] in n.heap && n.View().fds[i] == n.pollFds[i];
    if n.pollSockets[i] != 0 && n.pollSockets[i] == p {
      if Failed(a) {
        var done := n.OnReadSocketError(p);
      } else if a.receipt == True && n.heap[p].pending > 0 {
        ListedIsMember(n.View().writers, n.heap, p);
        var found := n.FindSocket(n.heap[p].fd, false);
        if found == 0 {
          var done := n.PollFDEnable(i, false);
          done := n.AddWriteSocket(p);
        }
      }
    }
  }

  /** Serves the readable entry `i`. */
  method ServeReadable(n: Thread, i: nat, a: Answer, rules: Rules)
    requires n.Shaped() && Ok(n.View(), n.max) && i < n.pollCount
    modifies n`pollCount, n`readCount, n`writeCount, n`heap, n`created,
             n.pollFds, n.pollSockets, n.readSockets, n.writeSockets
    ensures n.Shaped() && n.View() == ReadEffect(old(n.View()), i, a, rules, n.max)
  {
    assert n.View().socks[i] == n.pollSockets[i] && n.pollSockets[i] in n.heap;
    n.ClearRevents(i);
    var p := n.pollSockets[i];
    if a.receipt == True {
      var answer := OnMessage(n, p, a.deeds, a.ok, Object(p, n.heap[p].id), rules);
    }
    AfterHandler(n, i, p, a);
  }

  /** One iteration of the read pass; `stop` when the event count is used up. */
  method ReadStep(n: Thread, i: nat, answers: seq<Answer>, rules: Rules) returns (served: bool, stop: bool)
    requires n.Shaped() && Ok(n.View(), n.max) && i < n.pollCount
    modifies n, n.pollFds, n.pollSockets, n.readSockets, n.writeSockets
    ensures n.Shaped() && Ok(n.View(), n.max) && served == Due(old(n.View()), i, READ_BITS)
    ensures n.View() == if served then Serve(Reading, rules, n.max)(old(n.View()), i, First(answers)).after
                        else old(n.View())
    ensures n.eventsCount == old(n.eventsCount) - (if served then 1 else 0) && stop == (served && n.eventsCount <= 0)
  {
    assert n.View().fds[i] == n.pollFds[i] && n.View().fds[i].fd != INVALID;
    served, stop := false, false;
    if n.pollFds[i].fd != INVALID && n.pollFds[i].revents * READ_BITS != {} {
      served := true;
      ServeIs(n.View(), i, Reading, First(answers), rules, n.max);
      ServeReadable(n, i, First(answers), rules);
      n.eventsCount := n.eventsCount - 1;
      stop := n.eventsCount <= 0;
    }
  }

  method ReadOn(n: Thread, i: nat, answers: seq<Answer>, rules: Rules, ghost serve: Step, ghost o: Outcome)
    returns (unused: seq<Answer>, stop: bool, ghost rest: Outcome)
    requires n.Shaped() && Ok(n.View(), n.max) && i < n.pollCount && serve == Serve(Reading, rules, n.max)
    requires o == PassBy(serve, n.View(), i, n.eventsCount, READ_BITS, answers, n.max)
    modifies n, n.pollFds, n.pollSockets, n.readSockets, n.writeSockets
    ensures n.Shaped() && Ok(n.View(), n.max) && rest.t == o.t && rest.count == o.count
    ensures if stop then rest.t == n.View() && rest.count == n.eventsCount
            else rest == PassBy(serve, n.View(), i + 1, n.eventsCount, READ_BITS, unused, n.max)
  {
    ghost var t, count := n.View(), n.eventsCount;
    var served;
    served, stop := ReadStep(n, i, answers, rules);
    unused := if served then Rest(answers) else answers;
    rest := PassMovesOn(serve, t, n.View(), i, count, n.eventsCount, READ_BITS, answers, unused, n.max, o, stop);
  }

  method ProcessReadEvent(n: Thread, answers: seq<Answer>, rules: Rules)
    requires n.Shaped() && Ok(n.View(), n.max)
    modifies n, n.pollFds, n.pollSockets, n.readSockets, n.writeSockets
    ensures n.Shaped()
    ensures var o := Pass(old(n.View()), old(n.eventsCount), Reading, answers, rules, n.max);
            n.View() == o.t && n.eventsCount == o.count
  {
    ghost var serve := Serve(Reading, rules, n.max);
    ghost var o := PassBy(serve, n.View(), 0, n.eventsCount, READ_BITS, answers, n.max);
    ghost var rest := o;
    var i, unused, stop := 0, answers, false;
    while i < n.pollCount && !stop
      invariant i <= n.max && n.Shaped() && Ok(n.View(), n.max) && rest.t == o.t && rest.count == o.count
      invariant if stop then rest.t == n.View() && rest.count == n.eventsCount
                else rest == PassBy(serve, n.View(), i, n.eventsCount, READ_BITS, unused, n.max)
      decreases n.max - i
    {
      unused, stop, rest := ReadOn(n, i, unused, rules, serve, rest);
      i := i + 1;
    }
  }

  // ----- Writing -----

  /** `DoWrite`: the network takes some of the queued bytes, unless there are none. */
  method DoWrite(n: Thread, p: Ptr, a: Answer) returns (ok: bool)
    requires n.Shaped() && p in n.heap
    modifies n`heap
    ensures n.Shaped() && ok == Wrote(old(n.heap[p].pending), a)
    ensures n.View() == WithPending(old(n.View()), p, Left(old(n.heap[p].pending), a.sent))
  {
    ok := Wrote(n.heap[p].pending, a);
    SetPending(n, p, Left(n.heap[p].pending, a.sent));
  }

  /** What follows a write: the socket is removed, or its write interest is when nothing is
      left to send. */
  method AfterDoWrite(n: Thread, i: nat, p: Ptr, ok: bool)
    requires n.Shaped() && p in n.heap && i < n.pollCount && n.pollSockets[i] == p != 0 && n.pollFds[i].fd != INVALID
    modifies n`pollCount, n`readCount, n`writeCount, n`heap,
             n.pollFds, n.pollSockets, n.readSockets, n.writeSockets
    ensures n.Shaped()
    ensures n.View() == if !ok then Drop(old(n.View()), p)
                        else if old(n.View()).heap[p].pending == 0 then Delist(old(n.View()), i, p)
                        else old(n.View())
  {
    assert n.View().socks[i] == p && n.View().fds[i] == n.pollFds[i];
    var done;
    if !ok {
      if n.pollSockets[i] != 0 && n.pollSockets[i] == p {
        done := n.OnReadSocketError(p);
      }
    } else if n.pollSockets[i] != 0 && n.pollSockets[i] == p && n.heap[p].pending == 0 {
      done := n.PollFDDisable(i, false);
      done := n.DeleteWriteSocket(p, true);
    }
  }

  /** Serves the writable entry `i`. */
  method ServeWritable(n: Thread, i: nat, a: Answer)
    requires n.Shaped() && Ok(n.View(), n.max) && i < n.pollCount
    modifies n`pollCount, n`readCount, n`writeCount, n`heap,
             n.pollFds, n.pollSockets, n.readSockets, n.writeSockets
    ensures n.Shaped() && n.View() == WriteEffect(old(n.View()), i, a)
  {
    assert n.View().socks[i] == n.pollSockets[i] && n.View().fds[i] == n.pollFds[i];
    n.ClearRevents(i);
    var p := n.pollSockets[i];
    var ok := DoWrite(n, p, a);
    AfterDoWrite(n, i, p, ok);
  }

  method WriteStep(n: Thread, i: nat, answers: seq<Answer>, ghost rules: Rules) returns (served: bool, stop: bool)
    requires n.Shaped() && Ok(n.View(), n.max) && i < n.pollCount
    modifies n, n.pollFds, n.pollSockets, n.readSockets, n.writeSockets
    ensures n.Shaped() && Ok(n.View(), n.max) && served == Due(old(n.View()), i, Mask(Writing))
    ensures n.View() == if served then Serve(Writing, rules, n.max)(old(n.View()), i, First(answers)).after
                        else old(n.View())
    ensures n.eventsCount == old(n.eventsCount) - (if served then 1 else 0) && stop == (served && n.eventsCount <= 0)
  {
    assert n.View().fds[i] == n.pollFds[i] && n.View().fds[i].fd != INVALID;
    served, stop := false, false;
    if n.pollFds[i].fd != INVALID && n.pollFds[i].revents * (WRITE_BITS + {Pri}) != {} {
      served := true;
      ServeIs(n.View(), i, Writing, First(answers), rules, n.max);
      ServeWritable(n, i, First(answers));
      n.eventsCount := n.eventsCount - 1;
      stop := n.eventsCount <= 0;
    }
  }

  method WriteOn(n: Thread, i: nat, answers: seq<Answer>, ghost rules: Rules, ghost serve: Step, ghost o: Outcome)
    returns (unused: seq<Answer>, stop: bool, ghost rest: Outcome)
    requires n.Shaped() && Ok(n.View(), n.max) && i < n.pollCount && serve == Serve(Writing, rules, n.max)
    requires o == PassBy(serve, n.View(), i, n.eventsCount, Mask(Writing), answers, n.max)
    modifies n, n.pollFds, n.pollSockets, n.readSockets, n.writeSockets
    ensures n.Shaped() && Ok(n.View(), n.max) && rest.t == o.t && rest.count == o.count
    ensures if stop then rest.t == n.View() && rest.count == n.eventsCount
            else rest == PassBy(serve, n.View(), i + 1, n.eventsCount, Mask(Writing), unused, n.max)
  {
    ghost var t, count := n.View(), n.eventsCount;
    var served;
    served, stop := WriteStep(n, i, answers, rules);
    unused := if served then Rest(answers) else answers;
    rest := PassMovesOn(serve, t, n.View(), i, count, n.eventsCount, Mask(Writing), answers, unused, n.max, o, stop);
  }

  method ProcessWriteEvent(n: Thread, answers: seq<Answer>, ghost rules: Rules)
    requires n.Shaped() && Ok(n.View(), n.max)
    modifies n, n.pollFds, n.pollSockets, n.readSockets, n.writeSockets
    ensures n.Shaped()
    ensures var o := Pass(old(n.View()), old(n.eventsCount), Writing, answers, rules, n.max);
            n.View() == o.t && n.eventsCount == o.count
  {
    ghost var serve, mask := Serve(Writing, rules, n.max), Mask(Writing);
    ghost var o := PassBy(serve, n.View(), 0, n.eventsCount, mask, answers, n.max);
    ghost var rest := o;
    var i, unused, stop := 0, answers, false;
    while i < n.pollCount && !stop
      invariant i <= n.max && n.Shaped() && Ok(n.View(), n.max) && rest.t == o.t && rest.count == o.count
      invariant if stop then rest.t == n.View() && rest.count == n.eventsCount
                else rest == PassBy(serve, n.View(), i, n.eventsCount, mask, unused, n.max)
      decreases n.max - i
    {
      unused, stop, rest := WriteOn(n, i, unused, rules, serve, rest);
      i := i + 1;
    }
  }

  // ----- Accepting -----

  /** Clears the flags of the listening socket. */
  method ClearListener(n: Thread, listen: Ptr)
    requires n.Shaped() && (listen != 0 ==> listen in n.heap)
    modifies n.pollFds
    ensures n.Shaped() && n.View() == ListenerCleared(old(n.View()), listen)
  {
    var i := n.FindPollFD(listen);
    if i >= 0 {
      n.ClearRevents(i);
    }
  }

  lemma UndoFill(slots: seq<Ptr>, p: Ptr)
    requires 0 in slots && p != 0 && p !in slots
    ensures p in Refill(slots, 0, p) && Refill(Refill(slots, 0, p), p, 0) == slots
  {
    RefillIs(slots, 0, p);
    var r, i := Refill(slots, 0, p), FirstSlot(slots, 0);
    assert r[i] == p;
    RefillIs(r, p, 0);
    assert FirstSlot(r, p) == i;
  }

  /** Registers a new socket as a reader and in the poll table; if the latter is full, takes
      the registration back and deletes the socket. */
  method Enrol(n: Thread, p: Ptr, fd: int, queued: nat) returns (ok: bool)
    requires n.Shaped() && IsNew(n.View(), p, fd) && p !in n.View().readers && 0 in n.View().readers
    modifies n`pollCount, n`readCount, n`heap, n`created, n.pollFds, n.pollSockets, n.readSockets
    ensures n.Shaped() && ok == (old(n.pollCount) < n.max)
    ensures n.View() == if ok then Adopt(old(n.View()), p, fd, queued)
                        else old(n.View()).(created := old(n.created) + 1)
  {
    UndoFill(n.View().readers, p);
    n.NewSocket(p, fd, queued);
    var added := n.AddReadSocket(p);
    if !added {
      assert false;
    }
    ok := n.PollFDAdd(p, true);
    if !ok {
      var deleted := n.DeleteReadSocket(p, false);
      assert n.heap == old(n.heap);
    }
  }

  /** Takes on a connection, or leaves the tables as they were but for the listener's flag. */
  method ProcessConnection(n: Thread, listen: Ptr, a: Accept) returns (ok: bool)
    requires n.Shaped() && Ok(n.View(), n.max) && listen in n.heap
    modifies n, n.pollFds, n.pollSockets, n.readSockets, n.writeSockets
    ensures n.Shaped() && n.eventsCount == old(n.eventsCount) - 1
    ensures ok == TakesOn(old(n.View()), a, n.max) && Connected(old(n.View()), n.View(), listen, a, ok)
    ensures n.View() == Connect(old(n.View()), listen, a, n.max)
  {
    ConnectIsConnected(n.View(), listen, a, n.max);
    n.eventsCount := n.eventsCount - 1;
    ListenerClearedIs(n.View(), listen, n.max);
    ClearListener(n, listen);
    ok := TakeOn(n, a);
  }

  lemma ListenerClearedIs(t: Tables, listen: Ptr, max: nat)
    requires Ok(t, max) && listen in t.heap
    ensures var c := ListenerCleared(t, listen); Ok(c, max) && c == t.(fds := c.fds) && |c.fds| == |t.fds|
  {
  }

  /** What becomes of an accepted connection. */
  method TakeOn(n: Thread, a: Accept) returns (ok: bool)
    requires n.Shaped() && Ok(n.View(), n.max)
    modifies n`pollCount, n`readCount, n`heap, n`created, n.pollFds, n.pollSockets, n.readSockets
    ensures n.Shaped()
    ensures ok == (a.Accepted? && IsNew(old(n.View()), a.address, a.fd) && a.taken
                   && 0 in old(n.View()).readers && old(n.pollCount) < n.max)
    ensures n.View() == Take(old(n.View()), a, n.max)
  {
    ok := false;
    if a.Accepted? && IsNew(n.View(), a.address, a.fd) {
      if n.readCount >= n.max {
        return false;
      }
      if !a.taken {
        n.created := n.created + 1;
        return false;
      }
      ok := Enrol(n, a.address, a.fd, a.queued);
    }
  }

  // ----- One round -----

  /** The sockets with a flag up in the first `k` entries. */
  function RaisedBelow(t: Tables, k: nat): set<Ptr>
    requires |t.fds| == |t.socks|
  {
    set x | x in t.socks && FirstSlot(t.socks, x) < k && Flags(t, x) != {}
  }

  lemma RaisedStep(t: Tables, k: nat)
    requires PollOk(t) && k < |t.socks|
    ensures |RaisedBelow(t, k + 1)| == |RaisedBelow(t, k)| + if t.fds[k].revents == {} then 0 else 1
  {
    FlagsAt(t, k);
    var a, b := RaisedBelow(t, k), RaisedBelow(t, k + 1);
    assert forall x :: x in b <==> x in a || (x == t.socks[k] && t.fds[k].revents != {});
    assert b == a + if t.fds[k].revents == {} then {} else {t.socks[k]};
  }

  function CountFlagged(fds: seq<PollFd>): nat {
    if fds == [] then 0
    else CountFlagged(fds[..|fds| - 1]) + if fds[|fds| - 1].revents == {} then 0 else 1
  }

  lemma {:induction false} CountBelow(t: Tables, k: nat)
    requires PollOk(t) && k <= |t.fds|
    ensures |RaisedBelow(t, k)| == CountFlagged(t.fds[..k])
  {
    if k == 0 {
      assert RaisedBelow(t, 0) == {};
    } else {
      CountBelow(t, k - 1);
      RaisedStep(t, k - 1);
      assert t.fds[..k][..k - 1] == t.fds[..k - 1];
    }
  }

  /** Entries with flags are as many as sockets with flags. */
  lemma CountIsRaised(t: Tables)
    requires PollOk(t)
    ensures CountFlagged(t.fds) == |Raised(t)|
  {
    CountBelow(t, |t.fds|);
    assert RaisedBelow(t, |t.fds|) == Raised(t) && t.fds[..|t.fds|] == t.fds;
  }

  /** `poll` sets the flags of every entry and counts the entries it flagged; or it fails,
      interrupted or otherwise, and leaves the flags alone. */
  method WaitNetworkEvent(n: Thread, wait: Wait) returns (ok: bool)
    requires n.Shaped() && Ok(n.View(), n.max)
    modifies n`eventsCount, n.pollFds
    ensures n.Shaped() && ok == !wait.Interrupted?
    ensures Stage(n.View(), n.eventsCount) == Waited(old(n.View()), wait)
  {
    match wait
    case Interrupted =>
      n.eventsCount := 0;
      ok := false;
    case Broken =>
      n.eventsCount := -1;
      ok := true;
    case Polled(flags) =>
      RaiseKeepsOk(n.View(), flags, n.max);
      RaiseAll(n, flags);
      CountIsRaised(n.View());
      n.eventsCount := CountFlagged(n.View().fds);
      ok := true;
  }

  method RaiseAll(n: Thread, flags: map<int, set<Bit>>)
    requires n.Shaped()
    modifies n.pollFds
    ensures n.Shaped() && n.View() == Raise(old(n.View()), flags)
  {
    forall i | 0 <= i < n.pollCount {
      n.pollFds[i] := n.pollFds[i].(revents := FlagsFor(flags, n.pollFds[i].fd));
    }
    assert n.readSockets[..] == old(n.readSockets[..]) && n.writeSockets[..] == old(n.writeSockets[..]);
    assert n.View().fds == Raise(old(n.View()), flags).fds;
  }

  /** Looks at the listening socket first, and accepts a connection if one waits there. */
  method ProcessListener(n: Thread, listen: Ptr, r: Round) returns (found: bool)
    requires n.Shaped() && Ok(n.View(), n.max) && listen in n.heap && r.exitAt > 1 && n.eventsCount > 0
    modifies n, n.pollFds, n.pollSockets, n.readSockets, n.writeSockets
    ensures n.Shaped() && found == !Missing(Stage(old(n.View()), old(n.eventsCount)), listen, r)
    ensures Stage(n.View(), n.eventsCount) == AfterListener(Stage(old(n.View()), old(n.eventsCount)), listen, r, n.max)
  {
    var i := n.FindPollFD(listen);
    found := i >= 0;
    assert found ==> n.View().fds[i] == n.pollFds[i];
    if found && RdNorm in n.pollFds[i].revents {
      var accepted := ProcessConnection(n, listen, r.accept);
    }
  }

  /** The events of one round after the wait. The exit flag is read before each part. */
  method ProcessEvents(n: Thread, listen: Ptr, r: Round, rules: Rules) returns (ok: bool)
    requires n.Shaped() && Ok(n.View(), n.max)
    requires Followed(Stage(n.View(), n.eventsCount), listen, r) ==> listen in n.heap
    modifies n, n.pollFds, n.pollSockets, n.readSockets, n.writeSockets
    ensures n.Shaped() && ok == !Missing(Stage(old(n.View()), old(n.eventsCount)), listen, r)
    ensures Stage(n.View(), n.eventsCount) == Events(Stage(old(n.View()), old(n.eventsCount)), listen, r, rules, n.max)
  {
    ListenerKeepsOk(Stage(n.View(), n.eventsCount), listen, r, n.max);
    if r.exitAt > 1 && n.eventsCount > 0 && listen != 0 {
      ok := ProcessListener(n, listen, r);
      if !ok {
        return false;
      }
    }
    if r.exitAt > 2 && n.eventsCount > 0 {
      ProcessReadEvent(n, r.received, rules);
    }
    if r.exitAt > 3 && n.eventsCount > 0 {
      ProcessWriteEvent(n, r.written, rules);
    }
    ok := true;
  }

  /** One round of the thread. If it follows the pointer to the listening socket, that must be
      alive. */
  method Run(n: Thread, listen: Ptr, r: Round, rules: Rules) returns (ok: bool)
    requires n.Shaped() && Ok(n.View(), n.max) && FollowsAlive(n.View(), listen, r)
    modifies n, n.pollFds, n.pollSockets, n.readSockets, n.writeSockets
    ensures n.Shaped()
    ensures ok == (r.exitAt > 0 ==> !Missing(Waited(old(n.View()), r.wait), listen, r))
    ensures Stage(n.View(), n.eventsCount) == RunOnce(Stage(old(n.View()), old(n.eventsCount)), listen, r, rules, n.max)
  {
    ok := true;
    if r.exitAt > 0 {
      WaitKeepsOk(n.View(), r.wait, n.max);
      var waited := WaitNetworkEvent(n, r.wait);
      if waited {
        ok := ProcessEvents(n, listen, r, rules);
      }
    }
  }

  // ----- The life of a thread -----

  /** The listening socket, if there is to be one, is created and polled. */
  method InitInstance(n: Thread, listen: Ptr, fd: int) returns (ok: bool)
    requires n.Shaped() && (listen != 0 ==> IsNew(n.View(), listen, fd))
    modifies n`heap, n`created, n`pollCount, n.pollFds, n.pollSockets
    ensures n.Shaped() && ok == (listen != 0 ==> old(n.pollCount) < n.max)
    ensures n.View() == if listen == 0 then old(n.View())
                        else
                          var t := Allocate(old(n.View()), listen, fd, 0);
                          if ok then Add(t, listen, fd, READ_BITS) else t
  {
    ok := true;
    if listen != 0 {
      n.NewSocket(listen, fd, 0);
      ok := n.PollFDAdd(listen, true);
    }
  }

  /** The life of a thread: from its construction and `InitInstance` on, through any rounds, is
      `Life.Live`. It ends before a round in which the thread would follow its pointer to a
      listening socket that has been deleted; `done` is how many rounds there were until then.
      Always the tables are consistent, and no entry, reader or writer is a deleted socket. The
      event count covers the raised flags, unless `poll` was interrupted last, and then there are
      no events. If handlers never let the poll table overflow, write interest and the writers
      agree, and every reader is polled; if they also are mindful, which they are if they keep to
      their own sockets, and the connection hook queues nothing, every socket with queued bytes
      is polled for writing. If handlers spare the listening socket and `poll` is honest about
      it, it is never deleted, and all rounds take place. */
  method RunRounds(max: nat, listen: Ptr, fd: int, rounds: seq<Round>, rules: Rules)
    returns (n: Thread, done: nat)
    requires listen != 0 ==> fd >= 0 && 0 < max
    ensures n.Shaped() && n.max == max && Ok(n.View(), max) && done <= |rounds|
    ensures Lived(Stage(n.View(), n.eventsCount), done) == Live(max, listen, fd, rounds, rules)
    ensures if FreshFlags(rounds[..done]) then Covered(Stage(n.View(), n.eventsCount)) else n.eventsCount <= 0
    ensures rules.roomy ==> WritersOk(n.View()) && ReadersPolled(n.View())
    ensures rules.roomy && (forall r <- rounds :: r.accept.Accepted? ==> r.accept.queued == 0)
            && (rules.own || MindfulLife(max, listen, fd, rounds, rules)) ==>
              NoLost(n.View())
    ensures done < |rounds| ==> Stale(n.View(), listen, rounds[done])
    ensures listen != 0 && rules.spared == listen && (forall r <- rounds :: Honest(r, fd)) ==>
              done == |rounds| && Tended(n.View(), listen, Conn(fd, 0, 0))
  {
    n, done := LiveThrough(max, listen, fd, rounds, rules);
    LifeIsConsistent(max, listen, fd, rounds, rules);
    assert rounds[..|rounds|] == rounds;
    LifeCovers(max, listen, fd, rounds, rules, |rounds|);
    if rules.own {
      OwnLifeIsMindful(max, listen, fd, rounds, rules);
    }
    LifeLosesNothing(max, listen, fd, rounds, rules);
    LifeTends(max, listen, fd, rounds, rules);
    LifeEndsStale(max, listen, fd, rounds, rules);
  }

  method Started(max: nat, listen: Ptr, fd: int) returns (n: Thread)
    requires Startable(max, listen, fd)
    ensures fresh(n) && fresh(n.pollFds) && fresh(n.pollSockets) && fresh(n.readSockets) && fresh(n.writeSockets)
    ensures n.Shaped() && n.max == max && Stage(n.View(), n.eventsCount) == Start(max, listen, fd)
  {
    n := new Thread(max);
    var ok := InitInstance(n, listen, fd);
  }

  method LiveThrough(max: nat, listen: Ptr, fd: int, rounds: seq<Round>, rules: Rules)
    returns (n: Thread, done: nat)
    requires Startable(max, listen, fd)
    ensures n.Shaped() && n.max == max
    ensures Lived(Stage(n.View(), n.eventsCount), done) == Live(max, listen, fd, rounds, rules)
  {
    n := Started(max, listen, fd);
    done := 0;
    while done < |rounds| && !Stale(n.View(), listen, rounds[done])
      invariant fresh(n) && fresh(n.pollFds) && fresh(n.pollSockets) && fresh(n.readSockets) && fresh(n.writeSockets)
      invariant n.Shaped() && n.max == max && done <= |rounds| && |n.View().fds| == |n.View().socks|
      invariant Lived(Stage(n.View(), n.eventsCount), done) == Live(max, listen, fd, rounds[..done], rules)
    {
      LiveOn(max, listen, fd, rounds, rules, done, Stage(n.View(), n.eventsCount));
      var ok := Run(n, listen, rounds[done], rules);
      done := done + 1;
    }
    LifeEnds(max, listen, fd, rounds, rules, done);
  }
}
