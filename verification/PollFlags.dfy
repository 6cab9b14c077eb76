/** The flags that `poll` raised, followed through edits of the tables: which sockets still have
    one up, and which of those a removal has moved behind the cursor of a pass. */
module PollFlags {
  import opened PollTables
  import opened TableLaws

  /** The flags of socket `x`; none when it is not polled. */
  function Flags(t: Tables, x: Ptr): set<Bit>
    requires |t.fds| == |t.socks|
  {
    var i := FirstSlot(t.socks, x);
    if i < |t.fds| then t.fds[i].revents else {}
  }

  /** A socket for each entry, no two the same. */
  predicate Paired(t: Tables) {
    |t.fds| == |t.socks| && forall i, j :: 0 <= i < j < |t.socks| ==> t.socks[i] != t.socks[j]
  }

  lemma FlagsAt(t: Tables, i: nat)
    requires Paired(t) && i < |t.socks|
    ensures FirstSlot(t.socks, t.socks[i]) == i && Flags(t, t.socks[i]) == t.fds[i].revents
  {
  }

  /** The sockets with any flag up. */
  function Raised(t: Tables): set<Ptr>
    requires |t.fds| == |t.socks|
  {
    set x | x in t.socks && Flags(t, x) != {}
  }

  /** What becomes of the flags when the sockets `gone` lose their entry or their flags: no
      other flag goes down, none goes up, and no socket with a flag moves to a later entry. */
  ghost predicate Traced(t: Tables, u: Tables, gone: seq<Ptr>)
    requires |t.fds| == |t.socks| && |u.fds| == |u.socks|
  {
    forall x: Ptr ::
      && Flags(u, x) == (if x in gone then {} else Flags(t, x))
      && (Flags(u, x) != {} ==> FirstSlot(u.socks, x) <= FirstSlot(t.socks, x))
  }

  lemma TracedThen(t: Tables, u: Tables, v: Tables, a: seq<Ptr>, b: seq<Ptr>)
    requires |t.fds| == |t.socks| && |u.fds| == |u.socks| && |v.fds| == |v.socks|
    requires Traced(t, u, a) && Traced(u, v, b)
    ensures Traced(t, v, a + b)
  {
  }

  /** Flags that only go down: fewer sockets are raised, and the ones gone are not. */
  lemma TracedLowers(t: Tables, u: Tables, gone: seq<Ptr>)
    requires |t.fds| == |t.socks| && |u.fds| == |u.socks| && Traced(t, u, gone)
    ensures Raised(u) <= Raised(t) && forall x <- gone :: x !in Raised(u)
  {
    forall x | x in Raised(u)
      ensures x in Raised(t) && x !in gone
    {
      assert Flags(u, x) != {} && Flags(t, x) != {};
    }
  }

  /** Of the sockets that still have a flag of `mask` up, exactly those in `moved` have come to
      lie before entry `k` between `t` and `u`; and each of these had such a flag, in an entry
      not before `k`. */
  ghost predicate Moves(t: Tables, u: Tables, mask: set<Bit>, k: nat, moved: seq<Ptr>)
    requires |t.fds| == |t.socks| && |u.fds| == |u.socks|
  {
    && (forall x: Ptr :: Flags(u, x) * mask != {} ==>
          (FirstSlot(u.socks, x) < k <==> FirstSlot(t.socks, x) < k || x in moved))
    && (forall x <- moved :: Flags(t, x) * mask != {} && FirstSlot(t.socks, x) >= k)
  }

  lemma MovesThen(t: Tables, u: Tables, v: Tables, a: seq<Ptr>, b: seq<Ptr>,
                  mask: set<Bit>, k: nat, m: seq<Ptr>, n: seq<Ptr>)
    requires |t.fds| == |t.socks| && |u.fds| == |u.socks| && |v.fds| == |v.socks|
    requires Traced(t, u, a) && Traced(u, v, b) && Moves(t, u, mask, k, m) && Moves(u, v, mask, k, n)
    ensures Moves(t, v, mask, k, m + n)
  {
    forall x: Ptr | Flags(v, x) * mask != {}
      ensures FirstSlot(v.socks, x) < k <==> FirstSlot(t.socks, x) < k || x in m + n
    {
      assert Flags(v, x) == Flags(u, x);
    }
    forall x | x in m + n
      ensures Flags(t, x) * mask != {} && FirstSlot(t.socks, x) >= k
    {
      if x !in m {
        assert Flags(u, x) == Flags(t, x) && Flags(u, x) != {};
      }
    }
  }

  /** The old entries are where they were with the flags they had, and new ones have none. */
  predicate Grown(t: Tables, u: Tables)
    requires |t.fds| == |t.socks| && |u.fds| == |u.socks|
  {
    && |t.socks| <= |u.socks|
    && (forall i :: 0 <= i < |t.socks| ==> u.socks[i] == t.socks[i] && u.fds[i].revents == t.fds[i].revents)
    && (forall i :: |t.socks| <= i < |u.socks| ==> u.fds[i].revents == {})
  }

  lemma GrownAt(t: Tables, u: Tables, x: Ptr)
    requires |t.fds| == |t.socks| && |u.fds| == |u.socks| && Grown(t, u)
    ensures Flags(u, x) == Flags(t, x)
    ensures Flags(u, x) != {} ==> FirstSlot(u.socks, x) == FirstSlot(t.socks, x)
  {
    var i, j := FirstSlot(t.socks, x), FirstSlot(u.socks, x);
    if i < |t.socks| {
      assert u.socks[i] == x && j == i;
    } else if j < |u.socks| {
      assert j >= |t.socks|;
    }
  }

  lemma GrownIsTraced(t: Tables, u: Tables)
    requires |t.fds| == |t.socks| && |u.fds| == |u.socks| && Grown(t, u)
    ensures Traced(t, u, [])
  {
    forall x: Ptr
      ensures Flags(u, x) == Flags(t, x)
      ensures Flags(u, x) != {} ==> FirstSlot(u.socks, x) <= FirstSlot(t.socks, x)
    {
      GrownAt(t, u, x);
    }
  }

  lemma GrownMovesNobody(t: Tables, u: Tables, mask: set<Bit>, k: nat)
    requires |t.fds| == |t.socks| && |u.fds| == |u.socks| && Grown(t, u)
    ensures Moves(t, u, mask, k, [])
  {
    forall x: Ptr | Flags(u, x) * mask != {}
      ensures FirstSlot(u.socks, x) < k <==> FirstSlot(t.socks, x) < k
    {
      GrownAt(t, u, x);
    }
  }

  lemma ClearedIsTraced(t: Tables, i: nat)
    requires Paired(t) && i < |t.fds|
    ensures Paired(Cleared(t, i)) && Traced(t, Cleared(t, i), [t.socks[i]])
  {
    FlagsAt(t, i);
  }

  lemma ClearedMovesNobody(t: Tables, i: nat, mask: set<Bit>, k: nat)
    requires Paired(t) && i < |t.fds|
    ensures Paired(Cleared(t, i)) && Moves(t, Cleared(t, i), mask, k, [])
  {
  }

  // ----- Removal -----

  /** Entry `i` leaves the poll table: the last one takes its place. */
  predicate Removed(t: Tables, u: Tables, i: nat)
    requires |t.fds| == |t.socks|
  {
    i < |t.fds| && u.fds == SwapRemove(t.fds, i) && u.socks == SwapRemove(t.socks, i)
  }

  /** Where the sockets are then. */
  lemma PlacesAfterRemoval(t: Tables, u: Tables, i: nat, x: Ptr)
    requires Paired(t) && Removed(t, u, i)
    ensures |u.fds| == |u.socks| && Flags(u, x) == (if x == t.socks[i] then {} else Flags(t, x))
    ensures x != t.socks[i] && x in t.socks ==>
              FirstSlot(u.socks, x) == if x == t.socks[|t.socks| - 1] then i else FirstSlot(t.socks, x)
  {
    RemovalKeepsPaired(t, u, i);
    SwapRemoveIs(t.fds, i);
    SwapRemoveIs(t.socks, i);
    FlagsAt(t, i);
    if x in t.socks && x != t.socks[i] {
      var k := FirstSlot(t.socks, x);
      FlagsAt(t, |t.socks| - 1);
      FlagsAt(u, if k == |t.socks| - 1 then i else k);
    }
  }

  lemma RemovalKeepsPaired(t: Tables, u: Tables, i: nat)
    requires Paired(t) && Removed(t, u, i)
    ensures Paired(u) && (forall x :: x in u.socks <==> x in t.socks && x != t.socks[i])
  {
    SwapRemoveIs(t.socks, i);
    SwapRemoveMembers(t.socks, i);
  }

  lemma RemovalIsTraced(t: Tables, u: Tables, i: nat)
    requires Paired(t) && Removed(t, u, i)
    ensures |u.fds| == |u.socks| && Traced(t, u, [t.socks[i]])
  {
    FlagsAt(t, |t.socks| - 1);
    forall x: Ptr
      ensures Flags(u, x) == if x == t.socks[i] then {} else Flags(t, x)
      ensures Flags(u, x) != {} ==> FirstSlot(u.socks, x) <= FirstSlot(t.socks, x)
    {
      PlacesAfterRemoval(t, u, i, x);
    }
  }

  /** The socket, if any, that the removal of `q` moves to an entry before `k` with a flag of
      `mask` up: the last one, when the freed entry is before `k` and its own is not. */
  function MovedByDrop(t: Tables, q: Ptr, mask: set<Bit>, k: nat): (m: seq<Ptr>)
    requires |t.fds| == |t.socks|
    ensures |m| <= 1
  {
    if FirstSlot(t.socks, q) < k < |t.socks| then
      var last := t.socks[|t.socks| - 1];
      if last != q && Flags(t, last) * mask != {} then [last] else []
    else []
  }

  lemma RemovalMovesAt(t: Tables, u: Tables, i: nat, mask: set<Bit>, k: nat, x: Ptr)
    requires Paired(t) && Removed(t, u, i)
    ensures |u.fds| == |u.socks|
    ensures Flags(u, x) * mask != {} ==>
              (FirstSlot(u.socks, x) < k <==> FirstSlot(t.socks, x) < k || x in MovedByDrop(t, t.socks[i], mask, k))
  {
    PlacesAfterRemoval(t, u, i, x);
    FlagsAt(t, i);
    FlagsAt(t, |t.socks| - 1);
  }

  /** Exactly that one comes to lie before entry `k`. */
  lemma RemovalMoves(t: Tables, u: Tables, i: nat, mask: set<Bit>, k: nat)
    requires Paired(t) && Removed(t, u, i)
    ensures |u.fds| == |u.socks| && Moves(t, u, mask, k, MovedByDrop(t, t.socks[i], mask, k))
  {
    RemovalMovesAt(t, u, i, mask, k, 0);
    forall x: Ptr | Flags(u, x) * mask != {}
      ensures FirstSlot(u.socks, x) < k <==> FirstSlot(t.socks, x) < k || x in MovedByDrop(t, t.socks[i], mask, k)
    {
      RemovalMovesAt(t, u, i, mask, k, x);
    }
    FlagsAt(t, |t.socks| - 1);
  }

  lemma DropIsRemoval(t: Tables, q: Ptr, max: nat)
    requires Ok(t, max) && q in t.heap
    ensures q in t.socks ==> var i := FirstSlot(t.socks, q); Removed(t, Drop(t, q), i) && t.socks[i] == q
    ensures q !in t.socks ==> Drop(t, q).fds == t.fds && Drop(t, q).socks == t.socks
  {
    DeleteIsSwapRemove(t, q);
    if q in t.socks {
      FlagsAt(t, FirstFd(t.fds, t.heap[q].fd));
    }
  }

  lemma DropIsTraced(t: Tables, q: Ptr, max: nat)
    requires Ok(t, max) && q in t.heap
    ensures |Drop(t, q).fds| == |Drop(t, q).socks| && Traced(t, Drop(t, q), [q])
  {
    DropIsRemoval(t, q, max);
    if q in t.socks {
      RemovalIsTraced(t, Drop(t, q), FirstSlot(t.socks, q));
    }
  }

  lemma DropMoves(t: Tables, q: Ptr, max: nat, mask: set<Bit>, k: nat)
    requires Ok(t, max) && q in t.heap
    ensures |Drop(t, q).fds| == |Drop(t, q).socks| && Moves(t, Drop(t, q), mask, k, MovedByDrop(t, q, mask, k))
  {
    DropIsRemoval(t, q, max);
    if q in t.socks {
      RemovalMoves(t, Drop(t, q), FirstSlot(t.socks, q), mask, k);
    }
  }
}
