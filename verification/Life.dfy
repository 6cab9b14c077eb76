/** The life of a network thread as a value: from its start, with or without a listening socket,
    through any number of rounds. */
module Life {
  import opened Dispatch
  import opened Handlers
  import opened Passes
  import opened PollFlags
  import opened PollTables
  import opened Rounds
  import opened TableLaws

  predicate Startable(max: nat, listen: Ptr, fd: int) {
    listen != 0 ==> fd >= 0 && 0 < max
  }

  /** No socket but the listening one, if there is to be one: the first object, and polled. */
  function Start(max: nat, listen: Ptr, fd: int): Stage {
    var t := Tables([], [], Free(max), Free(max), map[], 0);
    Stage(if listen == 0 then t else Add(Allocate(t, listen, fd, 0), listen, fd, READ_BITS), 0)
  }

  lemma StartIsGood(max: nat, listen: Ptr, fd: int)
    requires Startable(max, listen, fd)
    ensures var s := Start(max, listen, fd);
            && Ok(s.t, max) && WritersOk(s.t) && ReadersPolled(s.t) && NoLost(s.t) && Covered(s)
            && (listen != 0 ==> Tended(s.t, listen, Conn(fd, 0, 0)))
  {
    var s := Start(max, listen, fd);
    assert READ_BITS * WRITE_BITS == {};
    assert Raised(s.t) == {};
  }

  /** Said outright: all slots are free, and the listening socket, if there is to be one, has the
      only entry, for all reads and without flags. */
  lemma StartComesTo(max: nat, listen: Ptr, fd: int)
    requires Startable(max, listen, fd)
    ensures var s := Start(max, listen, fd);
            && s.count == 0 && |s.t.readers| == |s.t.writers| == max
            && (forall i :: 0 <= i < max ==> s.t.readers[i] == 0 && s.t.writers[i] == 0)
            && if listen == 0 then s.t.fds == [] && s.t.socks == [] && s.t.heap == map[] && s.t.created == 0
               else
                 && s.t.fds == [PollFd(fd, {In, RdNorm, RdBand, Pri}, {})] && s.t.socks == [listen]
                 && s.t.heap == map[listen := Conn(fd, 0, 0)] && s.t.created == 1
  {
  }

  /** The round would follow the pointer to a listening socket that has been deleted. */
  predicate Stale(t: Tables, listen: Ptr, r: Round)
    requires |t.fds| == |t.socks|
  {
    !Lives(t, Object(listen, 0)) && Followed(Waited(t, r.wait), listen, r)
  }

  /** That is, if `poll` answers a flag of any polled socket, the exit flag is down, and the first
      object of all is no longer there. */
  lemma StaleIff(t: Tables, listen: Ptr, r: Round, max: nat)
    requires Ok(t, max)
    ensures Stale(t, listen, r) <==>
            && listen != 0 && !(listen in t.heap && t.heap[listen].id == 0)
            && r.exitAt > 1 && r.wait.Polled?
            && exists i :: 0 <= i < |t.fds| && t.fds[i].fd in r.wait.flags && r.wait.flags[t.fds[i].fd] != {}
  {
    if r.wait.Polled? {
      WaitComesTo(t, r.wait.flags, max);
      var w := Waited(t, r.wait);
      var entries := set i | 0 <= i < |t.fds| && w.t.fds[i].revents != {};
      if i :| 0 <= i < |t.fds| && t.fds[i].fd in r.wait.flags && r.wait.flags[t.fds[i].fd] != {} {
        assert i in entries;
      }
      if w.count > 0 {
        var i :| i in entries;
      }
    }
  }

  /** The tables and the event count after so many rounds. */
  datatype Lived = Lived(s: Stage, done: nat)

  function Live(max: nat, listen: Ptr, fd: int, rounds: seq<Round>, rules: Rules): (l: Lived)
    requires Startable(max, listen, fd)
    ensures Ok(l.s.t, max) && l.done <= |rounds|
    decreases |rounds|
  {
    if rounds == [] then
      StartIsGood(max, listen, fd);
      Lived(Start(max, listen, fd), 0)
    else
      var n := |rounds| - 1;
      var l := Live(max, listen, fd, rounds[..n], rules);
      Next(l, n, listen, rounds[n], rules, max)
  }

  /** Round number `n`, unless the life has ended before. */
  function Next(l: Lived, n: nat, listen: Ptr, r: Round, rules: Rules, max: nat): (m: Lived)
    requires Ok(l.s.t, max)
    ensures Ok(m.s.t, max) && (l.done < n || Stale(l.s.t, listen, r) ==> m == l)
    ensures m == l || m.done == n + 1
  {
    if l.done < n || Stale(l.s.t, listen, r) then l else Lived(RunOnce(l.s, listen, r, rules, max), n + 1)
  }

  lemma LiveNext(max: nat, listen: Ptr, fd: int, rounds: seq<Round>, rules: Rules, n: nat)
    requires Startable(max, listen, fd) && n < |rounds|
    ensures Live(max, listen, fd, rounds[..n + 1], rules)
         == Next(Live(max, listen, fd, rounds[..n], rules), n, listen, rounds[n], rules, max)
  {
    assert rounds[..n + 1][..n] == rounds[..n];
  }

  lemma LiveOn(max: nat, listen: Ptr, fd: int, rounds: seq<Round>, rules: Rules, n: nat, s: Stage)
    requires Startable(max, listen, fd) && n < |rounds| && Live(max, listen, fd, rounds[..n], rules) == Lived(s, n)
    requires |s.t.fds| == |s.t.socks| && !Stale(s.t, listen, rounds[n])
    ensures Ok(s.t, max) && FollowsAlive(s.t, listen, rounds[n])
    ensures Live(max, listen, fd, rounds[..n + 1], rules) == Lived(RunOnce(s, listen, rounds[n], rules, max), n + 1)
  {
    LiveNext(max, listen, fd, rounds, rules, n);
  }

  /** A life that has ended goes through no more rounds; one that has not, through all. */
  lemma {:induction false} LifeEnds(max: nat, listen: Ptr, fd: int, rounds: seq<Round>, rules: Rules, k: nat)
    requires Startable(max, listen, fd) && k <= |rounds|
    requires var l := Live(max, listen, fd, rounds[..k], rules);
             l.done == k && (k < |rounds| ==> Stale(l.s.t, listen, rounds[k]))
    ensures Live(max, listen, fd, rounds, rules) == Live(max, listen, fd, rounds[..k], rules)
    decreases |rounds|
  {
    if k == |rounds| {
      assert rounds[..k] == rounds;
    } else {
      var n := |rounds| - 1;
      assert rounds[..n][..k] == rounds[..k] && rounds[..n + 1] == rounds;
      LifeEnds(max, listen, fd, rounds[..n], rules, k);
      LiveNext(max, listen, fd, rounds, rules, n);
    }
  }

  /** Why it has ended. */
  lemma {:induction false} LifeEndsStale(max: nat, listen: Ptr, fd: int, rounds: seq<Round>, rules: Rules)
    requires Startable(max, listen, fd)
    ensures var l := Live(max, listen, fd, rounds, rules);
            l.done < |rounds| ==> Stale(l.s.t, listen, rounds[l.done])
    decreases |rounds|
  {
    if rounds != [] {
      LifeEndsStale(max, listen, fd, rounds[..|rounds| - 1], rules);
    }
  }

  /** If handlers never let the poll table overflow, write interest and the writers agree, and
      every reader is polled. */
  lemma {:induction false} LifeIsConsistent(max: nat, listen: Ptr, fd: int, rounds: seq<Round>, rules: Rules)
    requires Startable(max, listen, fd)
    ensures var t := Live(max, listen, fd, rounds, rules).s.t; rules.roomy ==> WritersOk(t) && ReadersPolled(t)
    decreases |rounds|
  {
    if rounds == [] {
      StartIsGood(max, listen, fd);
    } else {
      var n := |rounds| - 1;
      LifeIsConsistent(max, listen, fd, rounds[..n], rules);
      var l := Live(max, listen, fd, rounds[..n], rules);
      if rules.roomy && l.done == n && !Stale(l.s.t, listen, rounds[n]) {
        RoundKeepsWriters(l.s, listen, rounds[n], rules, max);
        RoundKeepsReaders(l.s, listen, rounds[n], rules, max);
      }
    }
  }

  /** All handlers are mindful in every round that takes place. */
  ghost predicate MindfulLife(max: nat, listen: Ptr, fd: int, rounds: seq<Round>, rules: Rules)
    requires Startable(max, listen, fd)
    decreases |rounds|
  {
    rounds == [] ||
    var n := |rounds| - 1;
    var l := Live(max, listen, fd, rounds[..n], rules);
    && MindfulLife(max, listen, fd, rounds[..n], rules)
    && (l.done == n && !Stale(l.s.t, listen, rounds[n]) ==> MindfulRound(l.s.t, listen, rounds[n], rules, max))
  }

  /** They are if they keep to their own sockets. */
  lemma {:induction false} OwnLifeIsMindful(max: nat, listen: Ptr, fd: int, rounds: seq<Round>, rules: Rules)
    requires Startable(max, listen, fd) && rules.own
    ensures MindfulLife(max, listen, fd, rounds, rules)
    decreases |rounds|
  {
    if rounds != [] {
      var n := |rounds| - 1;
      OwnLifeIsMindful(max, listen, fd, rounds[..n], rules);
      var l := Live(max, listen, fd, rounds[..n], rules);
      if l.done == n && !Stale(l.s.t, listen, rounds[n]) {
        OwnRoundIsMindful(l.s.t, listen, rounds[n], rules, max);
      }
    }
  }

  /** Then no output is ever lost, if the connection hook queues none. */
  lemma {:induction false} LifeLosesNothing(max: nat, listen: Ptr, fd: int, rounds: seq<Round>, rules: Rules)
    requires Startable(max, listen, fd)
    ensures rules.roomy && (forall r <- rounds :: r.accept.Accepted? ==> r.accept.queued == 0)
            && MindfulLife(max, listen, fd, rounds, rules) ==>
              NoLost(Live(max, listen, fd, rounds, rules).s.t)
    decreases |rounds|
  {
    if rounds == [] {
      StartIsGood(max, listen, fd);
    } else {
      var n := |rounds| - 1;
      LifeLosesNothing(max, listen, fd, rounds[..n], rules);
      LifeIsConsistent(max, listen, fd, rounds[..n], rules);
      var l := Live(max, listen, fd, rounds[..n], rules);
      assert rounds[n] in rounds;
      if && rules.roomy && NoLost(l.s.t) && (rounds[n].accept.Accepted? ==> rounds[n].accept.queued == 0)
         && l.done == n && !Stale(l.s.t, listen, rounds[n]) && MindfulRound(l.s.t, listen, rounds[n], rules, max) {
        RoundAttends(l.s, listen, rounds[n], rules, max);
      }
    }
  }

  /** The last round that waited was not interrupted, nor did its `poll` fail. */
  predicate FreshFlags(rounds: seq<Round>)
    decreases |rounds|
  {
    rounds == [] ||
    var n := |rounds| - 1;
    if rounds[n].exitAt == 0 then FreshFlags(rounds[..n]) else rounds[n].wait.Polled?
  }

  /** The event count covers the raised flags; or, if `poll` was interrupted or failed, there are
      no events. */
  predicate CoveredIf(polled: bool, s: Stage)
    requires |s.t.fds| == |s.t.socks|
  {
    if polled then Covered(s) else s.count <= 0
  }

  lemma FreshNext(rounds: seq<Round>, n: nat)
    requires n < |rounds|
    ensures FreshFlags(rounds[..n + 1])
         == if rounds[n].exitAt == 0 then FreshFlags(rounds[..n]) else rounds[n].wait.Polled?
  {
    assert rounds[..n + 1][..n] == rounds[..n];
  }

  lemma RoundCoversIf(s: Stage, listen: Ptr, r: Round, rules: Rules, max: nat, polled: bool)
    requires Ok(s.t, max) && !Stale(s.t, listen, r) && CoveredIf(polled, s)
    ensures CoveredIf(if r.exitAt == 0 then polled else r.wait.Polled?, RunOnce(s, listen, r, rules, max))
  {
    if r.exitAt > 0 && r.wait.Polled? {
      RoundCovers(s, listen, r, rules, max);
    } else if r.exitAt > 0 {
      RoundIsIdle(s, listen, r, rules, max);
    }
  }

  lemma NextCovers(l: Lived, n: nat, listen: Ptr, r: Round, rules: Rules, max: nat, before: bool, after: bool)
    requires Ok(l.s.t, max) && l.done <= n && CoveredIf(before, l.s)
    requires after == if r.exitAt == 0 then before else r.wait.Polled?
    ensures var m := Next(l, n, listen, r, rules, max);
            (m == l || m.done == n + 1) && CoveredIf(if m == l then before else after, m.s)
  {
    if l.done == n && !Stale(l.s.t, listen, r) {
      RoundCoversIf(l.s, listen, r, rules, max, before);
    }
  }

  /** So it is throughout the life of the thread, in which the first `k` of the rounds were due. */
  lemma {:induction false} LifeCovers(max: nat, listen: Ptr, fd: int, rounds: seq<Round>, rules: Rules, k: nat)
    requires Startable(max, listen, fd) && k <= |rounds|
    ensures var l := Live(max, listen, fd, rounds[..k], rules);
            l.done <= k && CoveredIf(FreshFlags(rounds[..l.done]), l.s)
    decreases k
  {
    if k == 0 {
      StartIsGood(max, listen, fd);
    } else {
      var n := k - 1;
      var l := Live(max, listen, fd, rounds[..n], rules);
      LifeCovers(max, listen, fd, rounds, rules, n);
      LiveNext(max, listen, fd, rounds, rules, n);
      FreshNext(rounds, n);
      if l.done == n {
        NextCovers(l, n, listen, rounds[n], rules, max, FreshFlags(rounds[..n]), FreshFlags(rounds[..k]));
      }
    }
  }

  /** The listening socket is never deleted, and all rounds take place, if handlers spare it and
      `poll` is honest about it. */
  lemma {:induction false} LifeTends(max: nat, listen: Ptr, fd: int, rounds: seq<Round>, rules: Rules)
    requires Startable(max, listen, fd)
    ensures listen != 0 && rules.spared == listen && (forall r <- rounds :: Honest(r, fd)) ==>
              var l := Live(max, listen, fd, rounds, rules);
              l.done == |rounds| && Tended(l.s.t, listen, Conn(fd, 0, 0))
    decreases |rounds|
  {
    if rounds == [] {
      StartIsGood(max, listen, fd);
    } else {
      var n := |rounds| - 1;
      LifeTends(max, listen, fd, rounds[..n], rules);
      var l := Live(max, listen, fd, rounds[..n], rules);
      assert rounds[n] in rounds;
      if rules.spared == listen && Tended(l.s.t, listen, Conn(fd, 0, 0)) && Honest(rounds[n], fd) {
        RoundTends(l.s, listen, rounds[n], rules, max, Conn(fd, 0, 0));
      }
    }
  }
}
