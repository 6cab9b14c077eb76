/** The network thread with a single table, of descriptors alone. The scan is the same, but after
    a failed handler the descriptor is looked up again in the entry the cursor is at, and nobody
    asks whether the entry is still that of the connection that was served. A descriptor that
    was closed may come back for another connection; connections are told apart by numbers. */
module SingleTable {
  import opened Dispatch
  import opened Handlers
  import opened Passes
  import opened PollFlags
  import opened PollTables
  import opened TableLaws

  // ----- The table as a value -----

  /** Beside each entry is the number of its connection, in the order in which they were taken
      on; `created` counts them. No two entries have the same number; that no two have the same
      descriptor nobody sees to but the operating system. */
  predicate Single(t: Tables, max: nat) {
    && Paired(t) && |t.fds| <= max
    && (forall i :: 0 <= i < |t.fds| ==> t.fds[i].fd != INVALID)
    && (forall x <- t.socks :: x < t.created)
  }

  /** Takes on the next connection. */
  function Register(t: Tables, fd: int): Tables {
    Add(t, t.created, fd, READ_BITS).(created := t.created + 1)
  }

  /** What a handler may do: close a descriptor, by way of `OnReadSocketError`, or take on a
      connection if there is room. */
  function Perform(t: Tables, d: Deed, max: nat): Tables
    requires Single(t, max)
  {
    match d
    case Remove(fd) => Delete(t, fd)
    case Listen(fd) => if |t.fds| < max then Register(t, fd) else t
    case _ => t
  }

  function PerformAll(t: Tables, deeds: seq<Deed>, max: nat): (u: Tables)
    requires Single(t, max)
    ensures Single(u, max)
    decreases |deeds|
  {
    if deeds == [] then t
    else
      PerformIsEdit(t, deeds[0], max, {}, 0);
      PerformAll(Perform(t, deeds[0], max), deeds[1..], max)
  }

  function Closed(t: Tables, deeds: seq<Deed>, max: nat): seq<Ptr>
    requires Single(t, max)
    decreases |deeds|
  {
    if deeds == [] then []
    else
      PerformIsEdit(t, deeds[0], max, {}, 0);
      ClosedBy(t, deeds[0]) + Closed(Perform(t, deeds[0], max), deeds[1..], max)
  }

  /** The connection that a deed closes. */
  function ClosedBy(t: Tables, d: Deed): (c: seq<Ptr>)
    requires |t.fds| == |t.socks|
    ensures |c| <= 1
  {
    if d.Remove? && FirstFd(t.fds, d.q) < |t.fds| then [t.socks[FirstFd(t.fds, d.q)]] else []
  }

  function MovedBy(t: Tables, d: Deed, mask: set<Bit>, k: nat): (m: seq<Ptr>)
    requires |t.fds| == |t.socks|
    ensures |m| <= |ClosedBy(t, d)|
  {
    if ClosedBy(t, d) == [] then [] else MovedByDrop(t, ClosedBy(t, d)[0], mask, k)
  }

  function MovedByAll(t: Tables, deeds: seq<Deed>, max: nat, mask: set<Bit>, k: nat): (m: seq<Ptr>)
    requires Single(t, max)
    ensures |m| <= |Closed(t, deeds, max)|
    decreases |deeds|
  {
    if deeds == [] then []
    else
      PerformIsEdit(t, deeds[0], max, {}, 0);
      MovedBy(t, deeds[0], mask, k) + MovedByAll(Perform(t, deeds[0], max), deeds[1..], max, mask, k)
  }

  /** The descriptor found in entry `i` by now; past the table the entries are blank. */
  function FdAt(t: Tables, i: nat): int {
    if i < |t.fds| then t.fds[i].fd else INVALID
  }

  /** The entry that the reaction to a failure finds: the first one with that descriptor. */
  function Found(h: Tables, i: nat): (j: nat)
    ensures j <= |h.fds|
  {
    FirstFd(h.fds, FdAt(h, i))
  }

  predicate Fails(a: Answer) {
    !(a.receipt.True? && a.ok)
  }

  /** The table when the handler of entry `i` has returned. */
  function Returned(t: Tables, i: nat, a: Answer, max: nat): (h: Tables)
    requires Single(t, max) && i < |t.fds|
    ensures Single(h, max)
  {
    if a.receipt.True? then PerformAll(Cleared(t, i), a.deeds, max) else Cleared(t, i)
  }

  /** What the thread does when the handler has returned. */
  function Reaction(h: Tables, i: nat, a: Answer): Tables
    requires |h.fds| == |h.socks|
  {
    if Fails(a) then Delete(h, FdAt(h, i)) else h
  }

  /** The effect of serving entry `i`. */
  function SingleEffect(t: Tables, i: nat, a: Answer, max: nat): Tables
    requires Single(t, max) && i < |t.fds|
  {
    Reaction(Returned(t, i, a, max), i, a)
  }

  function GoneInHandler(t: Tables, i: nat, a: Answer, max: nat): seq<Ptr>
    requires Single(t, max) && i < |t.fds|
  {
    if a.receipt.True? then Closed(Cleared(t, i), a.deeds, max) else []
  }

  function MovedInHandler(t: Tables, i: nat, a: Answer, max: nat, mask: set<Bit>, k: nat): (m: seq<Ptr>)
    requires Single(t, max) && i < |t.fds|
    ensures |m| <= |GoneInHandler(t, i, a, max)|
  {
    if a.receipt.True? then MovedByAll(Cleared(t, i), a.deeds, max, mask, k) else []
  }

  function GoneInReaction(h: Tables, i: nat, a: Answer): seq<Ptr> {
    if Fails(a) && Found(h, i) < |h.socks| then [h.socks[Found(h, i)]] else []
  }

  function MovedInReaction(h: Tables, i: nat, a: Answer, mask: set<Bit>, k: nat): (m: seq<Ptr>)
    requires |h.fds| == |h.socks|
    ensures |m| <= |GoneInReaction(h, i, a)|
  {
    if Fails(a) && Found(h, i) < |h.socks| then MovedByDrop(h, h.socks[Found(h, i)], mask, k) else []
  }

  function SingleEvent(t: Tables, i: nat, a: Answer, max: nat): Event
    requires Single(t, max) && i < |t.fds|
  {
    var h := Returned(t, i, a, max);
    Event(t.socks[i], SingleEffect(t, i, a, max),
          GoneInHandler(t, i, a, max) + GoneInReaction(h, i, a),
          MovedInHandler(t, i, a, max, READ_BITS, i + 1) + MovedInReaction(h, i, a, READ_BITS, i + 1))
  }

  function SingleServe(max: nat): Step {
    (t: Tables, i: nat, a: Answer) =>
      if Single(t, max) && i < |t.fds| then SingleEvent(t, i, a, max) else Event(0, t, [], [])
  }

  /** The read pass, the only one there is. */
  function SinglePass(t: Tables, count: int, answers: seq<Answer>, max: nat): (o: Outcome)
    requires Single(t, max)
    ensures Single(o.t, max)
  {
    SingleIsProper(max);
    PassIsLawful(SingleServe(max), u => Single(u, max), t, 0, count, READ_BITS, answers, max);
    PassBy(SingleServe(max), t, 0, count, READ_BITS, answers, max)
  }

  // ----- It is the same scan -----

  lemma DeleteKeepsSingle(t: Tables, fd: int, max: nat)
    requires Single(t, max) && FirstFd(t.fds, fd) < |t.fds|
    ensures Removed(t, Delete(t, fd), FirstFd(t.fds, fd)) && Single(Delete(t, fd), max)
  {
    var i := FirstFd(t.fds, fd);
    RemovalKeepsPaired(t, Delete(t, fd), i);
    SwapRemoveIs(t.fds, i);
  }

  lemma RegisterKeepsSingle(t: Tables, fd: int, max: nat)
    requires Single(t, max) && fd != INVALID && |t.fds| < max
    ensures Single(Register(t, fd), max)
  {
    assert forall i :: 0 <= i < |t.socks| ==> t.socks[i] in t.socks;
  }

  lemma PerformIsEdit(t: Tables, d: Deed, max: nat, mask: set<Bit>, k: nat)
    requires Single(t, max)
    ensures var u := Perform(t, d, max);
            Single(u, max) && Traced(t, u, ClosedBy(t, d)) && Moves(t, u, mask, k, MovedBy(t, d, mask, k))
  {
    var u := Perform(t, d, max);
    if ClosedBy(t, d) != [] {
      DeleteKeepsSingle(t, d.q, max);
      RemovalIsTraced(t, u, FirstFd(t.fds, d.q));
      RemovalMoves(t, u, FirstFd(t.fds, d.q), mask, k);
    } else {
      if u != t {
        RegisterKeepsSingle(t, d.q, max);
      }
      assert Grown(t, u);
      GrownIsTraced(t, u);
      GrownMovesNobody(t, u, mask, k);
    }
  }

  lemma {:induction false} HandlerIsEdit(t: Tables, deeds: seq<Deed>, max: nat, mask: set<Bit>, k: nat)
    requires Single(t, max)
    ensures Traced(t, PerformAll(t, deeds, max), Closed(t, deeds, max))
    ensures Moves(t, PerformAll(t, deeds, max), mask, k, MovedByAll(t, deeds, max, mask, k))
    decreases |deeds|
  {
    if deeds != [] {
      var u := Perform(t, deeds[0], max);
      PerformIsEdit(t, deeds[0], max, mask, k);
      HandlerIsEdit(u, deeds[1..], max, mask, k);
      TracedThen(t, u, PerformAll(u, deeds[1..], max), ClosedBy(t, deeds[0]), Closed(u, deeds[1..], max));
      MovesThen(t, u, PerformAll(u, deeds[1..], max), ClosedBy(t, deeds[0]), Closed(u, deeds[1..], max), mask, k,
                MovedBy(t, deeds[0], mask, k), MovedByAll(u, deeds[1..], max, mask, k));
    }
  }

  lemma ReturnedIsTraced(t: Tables, i: nat, a: Answer, max: nat)
    requires Single(t, max) && i < |t.fds|
    ensures Traced(t, Returned(t, i, a, max), [t.socks[i]] + GoneInHandler(t, i, a, max))
  {
    ClearedIsTraced(t, i);
    if a.receipt.True? {
      var c := Cleared(t, i);
      HandlerIsEdit(c, a.deeds, max, {}, 0);
      TracedThen(t, c, PerformAll(c, a.deeds, max), [t.socks[i]], Closed(c, a.deeds, max));
    }
  }

  lemma ReturnedMoves(t: Tables, i: nat, a: Answer, max: nat, mask: set<Bit>, k: nat)
    requires Single(t, max) && i < |t.fds|
    ensures Moves(t, Returned(t, i, a, max), mask, k, MovedInHandler(t, i, a, max, mask, k))
  {
    ClearedMovesNobody(t, i, mask, k);
    if a.receipt.True? {
      var c := Cleared(t, i);
      ClearedIsTraced(t, i);
      HandlerIsEdit(c, a.deeds, max, mask, k);
      MovesThen(t, c, PerformAll(c, a.deeds, max), [t.socks[i]], Closed(c, a.deeds, max), mask, k,
                [], MovedByAll(c, a.deeds, max, mask, k));
      assert [] + MovedByAll(c, a.deeds, max, mask, k) == MovedByAll(c, a.deeds, max, mask, k);
    }
  }

  lemma ReactionIsRemoval(h: Tables, i: nat, a: Answer, max: nat)
    requires Single(h, max)
    ensures var u := Reaction(h, i, a);
            if Fails(a) && Found(h, i) < |h.socks| then Removed(h, u, Found(h, i)) && Single(u, max) else u == h
  {
    if Fails(a) && Found(h, i) < |h.socks| {
      DeleteKeepsSingle(h, FdAt(h, i), max);
    }
  }

  lemma ReactionIsTraced(h: Tables, i: nat, a: Answer, max: nat)
    requires Single(h, max)
    ensures |Reaction(h, i, a).fds| == |Reaction(h, i, a).socks|
    ensures Traced(h, Reaction(h, i, a), GoneInReaction(h, i, a))
  {
    ReactionIsRemoval(h, i, a, max);
    if Fails(a) && Found(h, i) < |h.socks| {
      RemovalIsTraced(h, Reaction(h, i, a), Found(h, i));
    } else {
      GrownIsTraced(h, h);
    }
  }

  lemma ReactionMoves(h: Tables, i: nat, a: Answer, max: nat, mask: set<Bit>, k: nat)
    requires Single(h, max)
    ensures |Reaction(h, i, a).fds| == |Reaction(h, i, a).socks|
    ensures Moves(h, Reaction(h, i, a), mask, k, MovedInReaction(h, i, a, mask, k))
  {
    ReactionIsRemoval(h, i, a, max);
    if Fails(a) && Found(h, i) < |h.socks| {
      RemovalMoves(h, Reaction(h, i, a), Found(h, i), mask, k);
    } else {
      GrownMovesNobody(h, h, mask, k);
    }
  }

  lemma SingleIsTraced(t: Tables, i: nat, a: Answer, max: nat)
    requires Single(t, max) && i < |t.fds|
    ensures var e := SingleEvent(t, i, a, max);
            |e.after.fds| == |e.after.socks| && Traced(t, e.after, [t.socks[i]] + e.gone)
  {
    var p, h := t.socks[i], Returned(t, i, a, max);
    var r, s := GoneInHandler(t, i, a, max), GoneInReaction(h, i, a);
    ReturnedIsTraced(t, i, a, max);
    ReactionIsTraced(h, i, a, max);
    TracedThen(t, h, Reaction(h, i, a), [p] + r, s);
    Regroup([p], r, s);
  }

  lemma SingleMoves(t: Tables, i: nat, a: Answer, max: nat)
    requires Single(t, max) && i < |t.fds|
    ensures var e := SingleEvent(t, i, a, max);
            |e.after.fds| == |e.after.socks| && Moves(t, e.after, READ_BITS, i + 1, e.moved)
  {
    var p, h := t.socks[i], Returned(t, i, a, max);
    ReturnedIsTraced(t, i, a, max);
    ReturnedMoves(t, i, a, max, READ_BITS, i + 1);
    ReactionIsTraced(h, i, a, max);
    ReactionMoves(h, i, a, max, READ_BITS, i + 1);
    MovesThen(t, h, Reaction(h, i, a), [p] + GoneInHandler(t, i, a, max), GoneInReaction(h, i, a), READ_BITS, i + 1,
              MovedInHandler(t, i, a, max, READ_BITS, i + 1), MovedInReaction(h, i, a, READ_BITS, i + 1));
  }

  lemma EffectKeepsSingle(t: Tables, i: nat, a: Answer, max: nat)
    requires Single(t, max) && i < |t.fds|
    ensures Single(SingleEffect(t, i, a, max), max)
  {
    ReactionIsRemoval(Returned(t, i, a, max), i, a, max);
  }

  lemma SingleHappened(t: Tables, i: nat, a: Answer, max: nat)
    requires Single(t, max) && Due(t, i, READ_BITS)
    ensures var e := SingleEvent(t, i, a, max); |e.after.fds| == |e.after.socks| && Happened(t, i, READ_BITS, e)
  {
    var e := SingleEvent(t, i, a, max);
    SingleIsTraced(t, i, a, max);
    SingleMoves(t, i, a, max);
    EditHappened(t, i, READ_BITS, e.after, e.gone, e.moved);
  }

  lemma SingleIsProper(max: nat)
    ensures Proper(SingleServe(max), t => Single(t, max), READ_BITS, max)
  {
    forall t: Tables, i: nat, a: Answer | Single(t, max) && Due(t, i, READ_BITS)
      ensures Single(SingleServe(max)(t, i, a).after, max)
      ensures Happened(t, i, READ_BITS, SingleServe(max)(t, i, a))
    {
      EffectKeepsSingle(t, i, a, max);
      SingleHappened(t, i, a, max);
    }
  }

  /** The pass over the single table obeys the laws of the full thread's passes: the event count
      covers the flags, no connection is served twice, and each one that is due and not closed is
      served or skipped, at most one being skipped for each that is closed. */
  lemma SinglePassIsComplete(t: Tables, count: int, answers: seq<Answer>, max: nat)
    requires Single(t, max) && |Raised(t)| <= count
    ensures Complete(t, count, READ_BITS, SinglePass(t, count, answers, max))
  {
    SingleIsProper(max);
    PassIsLawful(SingleServe(max), u => Single(u, max), t, 0, count, READ_BITS, answers, max);
    LawfulIsComplete(t, count, READ_BITS, SinglePass(t, count, answers, max));
  }

  // ----- Whom a failure hits -----

  /** A failed handler costs no other connection its entry exactly when the look-up of the
      descriptor in its entry finds the connection that was served, or nobody. */
  lemma SingleSparesOthersIff(t: Tables, i: nat, a: Answer, max: nat)
    requires Single(t, max) && i < |t.fds| && (a.receipt != True || !a.ok)
    ensures var h, me := Returned(t, i, a, max), t.socks[i];
            (forall x <- h.socks :: x != me ==> x in SingleEffect(t, i, a, max).socks)
            <==> (Found(h, i) < |h.socks| ==> h.socks[Found(h, i)] == me)
  {
    FailureHits(t, i, a, max);
  }

  /** And exactly the connection that was served goes when the look-up finds it, or finds nobody
      after the handler has closed that connection itself. */
  lemma SingleHitsServedIff(t: Tables, i: nat, a: Answer, max: nat)
    requires Single(t, max) && i < |t.fds| && (a.receipt != True || !a.ok)
    ensures var h, me := Returned(t, i, a, max), t.socks[i];
            (forall x <- h.socks :: x in SingleEffect(t, i, a, max).socks <==> x != me)
            <==> if Found(h, i) < |h.socks| then h.socks[Found(h, i)] == me else me !in h.socks
  {
    FailureHits(t, i, a, max);
  }

  lemma FailureHits(t: Tables, i: nat, a: Answer, max: nat)
    requires Single(t, max) && i < |t.fds| && Fails(a)
    ensures var h, u := Returned(t, i, a, max), SingleEffect(t, i, a, max);
            if Found(h, i) < |h.socks|
            then h.socks[Found(h, i)] in h.socks
                 && forall x :: x in u.socks <==> x in h.socks && x != h.socks[Found(h, i)]
            else u == h
  {
    var h, u := Returned(t, i, a, max), SingleEffect(t, i, a, max);
    ReactionIsRemoval(h, i, a, max);
    if Found(h, i) < |h.socks| {
      RemovalKeepsPaired(h, u, Found(h, i));
    }
  }

  /** A handler that succeeds has no reaction but its own deeds. */
  lemma SuccessHitsNobody(t: Tables, i: nat, a: Answer, max: nat)
    requires Single(t, max) && i < |t.fds| && a.receipt == True && a.ok
    ensures SingleEffect(t, i, a, max) == Returned(t, i, a, max)
  {
  }

  /** As long as descriptors differ, the look-up finds the entry it comes from; nobody, if that is
      blank. */
  lemma LookUpIsEntry(h: Tables, i: nat, max: nat)
    requires Single(h, max) && DistinctFds(h.fds)
    ensures Found(h, i) == if i < |h.fds| then i else |h.fds|
  {
  }

  /** Connections stay until they are closed and never move to a later entry; those that were
      not there before are new. */
  predicate Follows(t: Tables, u: Tables, gone: seq<Ptr>) {
    && t.created <= u.created
    && (forall x <- t.socks :: x in gone || x in u.socks)
    && (forall x <- u.socks :: t.created <= x || (x in t.socks && FirstSlot(u.socks, x) <= FirstSlot(t.socks, x)))
  }

  lemma FollowsThen(t: Tables, u: Tables, v: Tables, a: seq<Ptr>, b: seq<Ptr>)
    requires Follows(t, u, a) && Follows(u, v, b)
    ensures Follows(t, v, a + b)
  {
  }

  lemma PerformFollows(t: Tables, d: Deed, max: nat)
    requires Single(t, max)
    ensures Follows(t, Perform(t, d, max), ClosedBy(t, d))
  {
    var u := Perform(t, d, max);
    if ClosedBy(t, d) != [] {
      var i := FirstFd(t.fds, d.q);
      RemovalKeepsPaired(t, u, i);
      forall x <- u.socks
        ensures FirstSlot(u.socks, x) <= FirstSlot(t.socks, x)
      {
        PlacesAfterRemoval(t, u, i, x);
        FlagsAt(t, |t.socks| - 1);
      }
    } else {
      forall x <- t.socks
        ensures x in u.socks && FirstSlot(u.socks, x) == FirstSlot(t.socks, x)
      {
        assert u.socks[FirstSlot(t.socks, x)] == x;
      }
    }
  }

  lemma {:induction false} HandlerFollows(t: Tables, deeds: seq<Deed>, max: nat)
    requires Single(t, max)
    ensures Follows(t, PerformAll(t, deeds, max), Closed(t, deeds, max))
    decreases |deeds|
  {
    if deeds != [] {
      var u := Perform(t, deeds[0], max);
      PerformIsEdit(t, deeds[0], max, {}, 0);
      PerformFollows(t, deeds[0], max);
      HandlerFollows(u, deeds[1..], max);
      FollowsThen(t, u, PerformAll(u, deeds[1..], max), ClosedBy(t, deeds[0]), Closed(u, deeds[1..], max));
    }
  }

  /** The entry has changed hands only if the handler has closed the connection that was served,
      or others, so that it has moved to an earlier entry; and whoever has the entry then was
      in a later one, or was taken on by the handler. */
  lemma EntryChangesHands(t: Tables, i: nat, a: Answer, max: nat)
    requires Single(t, max) && i < |t.fds|
    ensures var h, me := Returned(t, i, a, max), t.socks[i];
            i < |h.socks| && h.socks[i] != me ==>
              && (me in GoneInHandler(t, i, a, max) || FirstSlot(h.socks, me) < i)
              && (t.created <= h.socks[i] || i < FirstSlot(t.socks, h.socks[i]) < |t.socks|)
  {
    var h, me := Returned(t, i, a, max), t.socks[i];
    FlagsAt(t, i);
    if a.receipt.True? && i < |h.socks| && h.socks[i] != me {
      HandlerFollows(Cleared(t, i), a.deeds, max);
      FlagsAt(h, i);
      assert h.socks[i] in h.socks && me in t.socks;
      assert t.created <= h.socks[i] || t.socks[FirstSlot(t.socks, h.socks[i])] == h.socks[i];
      assert me in h.socks ==> h.socks[FirstSlot(h.socks, me)] == me;
    }
  }

  /** A handler that closes nothing leaves the entry alone. */
  lemma {:induction false} ClosingNothingKeepsEntry(t: Tables, i: nat, deeds: seq<Deed>, max: nat)
    requires Single(t, max) && i < |t.fds| && forall d <- deeds :: !d.Remove?
    ensures var h := PerformAll(t, deeds, max); i < |h.socks| && h.socks[i] == t.socks[i] && h.fds[i] == t.fds[i]
    decreases |deeds|
  {
    if deeds != [] {
      PerformIsEdit(t, deeds[0], max, {}, 0);
      ClosingNothingKeepsEntry(Perform(t, deeds[0], max), i, deeds[1..], max);
    }
  }

  lemma PerformTwo(t: Tables, d: Deed, e: Deed, max: nat)
    requires Single(t, max) && Single(Perform(t, d, max), max)
    ensures PerformAll(t, [d, e], max) == Perform(Perform(t, d, max), e, max)
  {
    assert [d, e][1..] == [e] && [e][1..] == [];
    var u := Perform(t, d, max);
    PerformIsEdit(u, e, max, {}, 0);
    assert PerformAll(u, [e], max) == PerformAll(Perform(u, e, max), [], max);
  }

  /** It can cost another its entry: the handler of descriptor 7, which is not in the last entry,
      closes it and then fails; descriptor 8 has taken the entry, and is closed in its place. */
  lemma StrangerIsClosed()
    ensures var t := Tables([PollFd(7, READ_BITS, {In}), PollFd(8, READ_BITS, {})], [0, 1], [], [], map[], 2);
            var a := Answer(True, [Remove(7)], false, 0);
            && Single(t, 2) && Returned(t, 0, a, 2).socks == [1]
            && SingleEffect(t, 0, a, 2).socks == [] && SingleEffect(t, 0, a, 2).fds == []
  {
    var t := Tables([PollFd(7, READ_BITS, {In}), PollFd(8, READ_BITS, {})], [0, 1], [], [], map[], 2);
    var c := Cleared(t, 0);
    assert c.fds == [PollFd(7, READ_BITS, {}), PollFd(8, READ_BITS, {})];
    assert FirstFd(c.fds, 7) == 0;
    var h := Delete(c, 7);
    assert h.fds == [PollFd(8, READ_BITS, {})] && h.socks == [1];
    assert [Remove(7)][1..] == [];
    assert PerformAll(c, [Remove(7)], 2) == h;
    assert FirstFd(h.fds, 8) == 0;
  }

  /** Or the failed connection keeps its entry: it has moved to another, because its handler closed
      the one there, and its own entry is blank. */
  lemma FailedConnectionStays()
    ensures var t := Tables([PollFd(7, READ_BITS, {}), PollFd(8, READ_BITS, {In})], [0, 1], [], [], map[], 2);
            var a := Answer(True, [Remove(7)], false, 0);
            && Single(t, 2) && Due(t, 1, READ_BITS)
            && SingleEffect(t, 1, a, 2) == Tables([PollFd(8, READ_BITS, {})], [1], [], [], map[], 2)
  {
    var t := Tables([PollFd(7, READ_BITS, {}), PollFd(8, READ_BITS, {In})], [0, 1], [], [], map[], 2);
    var c := Cleared(t, 1);
    assert In in {In} * READ_BITS;
    assert c.fds == [PollFd(7, READ_BITS, {}), PollFd(8, READ_BITS, {})];
    assert FirstFd(c.fds, 7) == 0;
    var h := Delete(c, 7);
    assert h.fds == [PollFd(8, READ_BITS, {})] && h.socks == [1];
    assert [Remove(7)][1..] == [];
    assert PerformAll(c, [Remove(7)], 2) == h;
  }

  /** A single connection, with room for one. */
  function OneConnection(flags: set<Bit>, number: nat): Tables {
    Tables([PollFd(7, READ_BITS, flags)], [number], [], [], map[], number + 1)
  }

  lemma ConnectionIsClosed(number: nat)
    ensures Single(OneConnection({}, number), 1)
    ensures Delete(OneConnection({}, number), 7) == Tables([], [], [], [], map[], number + 1)
  {
    assert FirstFd(OneConnection({}, number).fds, 7) == 0;
  }

  /** It happens to a connection with the same descriptor: the handler closes its own, takes on
      another, for which the operating system answers the lowest free descriptor, and fails. The
      look-up finds descriptor 7 again, and the new connection is closed for the failure of the
      old one. */
  lemma ReusedDescriptorIsClosed()
    ensures var t := OneConnection({In}, 0);
            var a := Answer(True, [Remove(7), Listen(7)], false, 0);
            && Single(t, 1) && Returned(t, 0, a, 1) == OneConnection({}, 1)
            && FdAt(Returned(t, 0, a, 1), 0) == t.fds[0].fd
            && SingleEffect(t, 0, a, 1) == Tables([], [], [], [], map[], 2)
  {
    var t := OneConnection({In}, 0);
    assert Single(t, 1);
    assert Cleared(t, 0) == OneConnection({}, 0);
    HandlerReusesDescriptor();
    ConnectionIsClosed(1);
  }

  lemma HandlerReusesDescriptor()
    ensures Single(OneConnection({}, 0), 1)
    ensures PerformAll(OneConnection({}, 0), [Remove(7), Listen(7)], 1) == OneConnection({}, 1)
  {
    var c, e := OneConnection({}, 0), Tables([], [], [], [], map[], 1);
    ConnectionIsClosed(0);
    assert Perform(c, Remove(7), 1) == e;
    assert Perform(e, Listen(7), 1) == OneConnection({}, 1);
    PerformTwo(c, Remove(7), Listen(7), 1);
  }

  // ----- The thread -----

  /** Connection numbers given out, no two the same. */
  predicate Numbered(numbers: seq<nat>, created: nat) {
    && (forall x <- numbers :: x < created)
    && (forall i, j :: 0 <= i < j < |numbers| ==> numbers[i] != numbers[j])
  }

  lemma OneMoreNumber(numbers: seq<nat>, created: nat)
    requires Numbered(numbers, created)
    ensures Numbered(numbers + [created], created + 1)
  {
    var more := numbers + [created];
    forall x | x in more
      ensures x < created + 1
    {
      assert x in numbers || x == created;
    }
    assert forall i :: 0 <= i < |numbers| ==> more[i] in numbers;
  }

  lemma OneNumberLess(numbers: seq<nat>, created: nat, i: nat)
    requires Numbered(numbers, created) && i < |numbers|
    ensures Numbered(SwapRemove(numbers, i), created)
  {
    SwapRemoveIs(numbers, i);
    SwapRemoveMembers(numbers, i);
  }

  class SingleThread {
    const max: nat
    const pollFds: array<PollFd>
    var pollCount: nat
    var eventsCount: int
    ghost var numbers: seq<nat>  // of the connections in the table
    ghost var created: nat

    ghost predicate Shaped()
      reads this, pollFds
    {
      && pollFds.Length == max && pollCount <= max
      && (forall i :: pollCount <= i < max ==> pollFds[i] == BLANK)
      && (forall i :: 0 <= i < pollCount ==> pollFds[i].fd != INVALID)
      && |numbers| == pollCount && Numbered(numbers, created)
    }

    ghost function View(): (t: Tables)
      requires Shaped()
      reads this, pollFds
      ensures Single(t, max)
    {
      Tables(pollFds[..pollCount], numbers, [], [], map[], created)
    }

    constructor (max: nat)
      ensures this.max == max && Shaped() && View() == Tables([], [], [], [], map[], 0) && fresh(pollFds)
    {
      this.max := max;
      pollFds := new PollFd[max](_ => BLANK);
      pollCount, eventsCount, numbers, created := 0, 0, [], 0;
    }

    method PollFDAdd(fd: int) returns (ok: bool)
      requires Shaped()
      modifies this`pollCount, this`numbers, this`created, pollFds
      ensures Shaped() && ok == (fd != INVALID && old(pollCount) < max)
      ensures View() == if ok then Register(old(View()), fd) else old(View())
      ensures ok ==> pollFds[old(pollCount)] == PollFd(fd, {In, RdNorm, RdBand, Pri}, {})
    {
      if fd == INVALID {
        return false;
      }
      if pollCount >= max {
        return false;
      }
      pollFds[pollCount] := PollFd(fd, READ_BITS, {});
      pollCount := pollCount + 1;
      OneMoreNumber(numbers, created);
      numbers, created := numbers + [created], created + 1;
      ok := true;
    }

    method FindPollFD(fd: int) returns (i: nat)
      requires Shaped()
      ensures i == FirstFd(View().fds, fd)
    {
      i := 0;
      while i < pollCount && pollFds[i].fd != fd
        invariant i <= pollCount
        invariant forall j :: 0 <= j < i ==> pollFds[j].fd != fd
      {
        i := i + 1;
      }
    }

    /** The last entry takes the place of entry `i`, and its own place is blanked. */
    method RemoveEntry(i: nat)
      requires Shaped() && i < pollCount
      modifies this`pollCount, this`numbers, pollFds
      ensures Shaped()
      ensures View() == old(View()).(fds := SwapRemove(old(View()).fds, i), socks := SwapRemove(old(View()).socks, i))
    {
      var last := pollCount - 1;
      if i != last {
        pollFds[i] := pollFds[last];
      }
      pollFds[last] := BLANK;
      pollCount := pollCount - 1;
      OneNumberLess(numbers, created, i);
      numbers := SwapRemove(numbers, i);
    }

    method PollFDDelete(fd: int) returns (ok: bool)
      requires Shaped()
      modifies this`pollCount, this`numbers, pollFds
      ensures Shaped() && View() == Delete(old(View()), fd)
      ensures ok == (fd != INVALID && FirstFd(old(View()).fds, fd) < old(pollCount))
    {
      if fd == INVALID {
        return false;
      }
      var i := FindPollFD(fd);
      if i < pollCount {
        RemoveEntry(i);
        return true;
      }
      ok := false;
    }

    /** The default reaction: the descriptor leaves the table and is closed. */
    method OnReadSocketError(fd: int) returns (ok: bool)
      requires Shaped()
      modifies this`pollCount, this`numbers, pollFds
      ensures Shaped() && View() == Delete(old(View()), fd) && ok == (fd != INVALID)
    {
      if fd == INVALID {
        return false;
      }
      var found := PollFDDelete(fd);
      ok := true;
    }

    method ClearRevents(i: nat)
      requires Shaped() && i < pollCount
      modifies pollFds
      ensures Shaped() && View() == Cleared(old(View()), i)
    {
      pollFds[i] := pollFds[i].(revents := {});
    }

    method Do(d: Deed)
      requires Shaped()
      modifies this`pollCount, this`numbers, this`created, pollFds
      ensures Shaped() && View() == Perform(old(View()), d, max)
    {
      var done;
      match d
      case Remove(fd) => done := OnReadSocketError(fd);
      case Listen(fd) => done := PollFDAdd(fd);
      case _ =>
    }

    method OnMessage(a: Answer) returns (ok: bool)
      requires Shaped()
      modifies this`pollCount, this`numbers, this`created, pollFds
      ensures Shaped() && View() == PerformAll(old(View()), a.deeds, max) && ok == a.ok
    {
      var rest := a.deeds;
      while rest != []
        invariant Shaped()
        invariant PerformAll(old(View()), a.deeds, max) == PerformAll(View(), rest, max)
        decreases |rest|
      {
        PerformIsEdit(View(), rest[0], max, {}, 0);
        Do(rest[0]);
        rest := rest[1..];
      }
      ok := a.ok;
    }

    /** Serves entry `i`. The descriptor of an error is read from the entry again. */
    method ServeEntry(i: nat, a: Answer)
      requires Shaped() && i < pollCount
      modifies this`pollCount, this`numbers, this`created, pollFds
      ensures Shaped() && View() == SingleEffect(old(View()), i, a, max)
    {
      ClearRevents(i);
      var ok := false;
      if a.receipt == True {
        ok := OnMessage(a);
      }
      if !ok {
        assert pollFds[i].fd == FdAt(View(), i);
        var done := OnReadSocketError(pollFds[i].fd);
      }
    }

    method ReadStep(i: nat, answers: seq<Answer>) returns (served: bool, stop: bool)
      requires Shaped() && i < pollCount
      modifies this, pollFds
      ensures Shaped() && served == Due(old(View()), i, READ_BITS)
      ensures View() == if served then SingleServe(max)(old(View()), i, First(answers)).after else old(View())
      ensures eventsCount == old(eventsCount) - (if served then 1 else 0) && stop == (served && eventsCount <= 0)
    {
      assert View().fds[i] == pollFds[i];
      served, stop := false, false;
      if pollFds[i].fd != INVALID && pollFds[i].revents * READ_BITS != {} {
        served := true;
        EffectKeepsSingle(View(), i, First(answers), max);
        ServeEntry(i, First(answers));
        eventsCount := eventsCount - 1;
        stop := eventsCount <= 0;
      }
    }

    method ReadOn(i: nat, answers: seq<Answer>, ghost o: Outcome)
      returns (unused: seq<Answer>, stop: bool, ghost rest: Outcome)
      requires Shaped() && i < pollCount
      requires o == PassBy(SingleServe(max), View(), i, eventsCount, READ_BITS, answers, max)
      modifies this, pollFds
      ensures Shaped() && rest.t == o.t && rest.count == o.count
      ensures if stop then rest.t == View() && rest.count == eventsCount
              else rest == PassBy(SingleServe(max), View(), i + 1, eventsCount, READ_BITS, unused, max)
    {
      ghost var t, count := View(), eventsCount;
      var served;
      served, stop := ReadStep(i, answers);
      unused := if served then Rest(answers) else answers;
      rest := PassMovesOn(SingleServe(max), t, View(), i, count, eventsCount, READ_BITS, answers, unused, max, o, stop);
    }

    method ProcessReadEvent(answers: seq<Answer>)
      requires Shaped()
      modifies this, pollFds
      ensures Shaped()
      ensures var o := SinglePass(old(View()), old(eventsCount), answers, max); View() == o.t && eventsCount == o.count
    {
      ghost var o := PassBy(SingleServe(max), View(), 0, eventsCount, READ_BITS, answers, max);
      ghost var rest := o;
      var i, unused, stop := 0, answers, false;
      while i < pollCount && !stop
        invariant i <= max && Shaped() && rest.t == o.t && rest.count == o.count
        invariant if stop then rest.t == View() && rest.count == eventsCount
                  else rest == PassBy(SingleServe(max), View(), i, eventsCount, READ_BITS, unused, max)
        decreases max - i
      {
        unused, stop, rest := ReadOn(i, unused, rest);
        i := i + 1;
      }
    }
  }
}
