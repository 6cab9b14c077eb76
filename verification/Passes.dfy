/** A read or write pass over the poll table: the cursor moves on by one entry at a time, while
    handlers remove sockets, which swaps the last entry into the freed one, and take on others. */
module Passes {
  import opened Dispatch
  import opened Handlers
  import opened PollFlags
  import opened PollTables
  import opened TableLaws

  /** Where a pass ends: the tables, the event count, and whether it stopped because the count
      was used up. `served` and `removed` are the sockets served and removed, in order, and
      `skipped` those that a removal moved behind the cursor while their flag was up. */
  datatype Outcome = Outcome(t: Tables, count: int, stopped: bool,
                             served: seq<Ptr>, removed: seq<Ptr>, skipped: seq<Ptr>)

  /** One event: the socket that is served, the tables afterwards, the sockets removed, and those
      moved behind the cursor with a wanted flag up. */
  datatype Event = Event(served: Ptr, after: Tables, gone: seq<Ptr>, moved: seq<Ptr>)

  /** What serving an entry does, given an answer of the world. */
  type Step = (Tables, nat, Answer) -> Event

  /** With no more answers given, the world does nothing. */
  function First(answers: seq<Answer>): Answer {
    if answers == [] then Answer(Interim, [], true, 0) else answers[0]
  }

  function Rest(answers: seq<Answer>): seq<Answer> {
    if answers == [] then [] else answers[1..]
  }

  predicate Due(t: Tables, i: nat, mask: set<Bit>) {
    i < |t.fds| && t.fds[i].revents * mask != {}
  }

  function Joined(e: Event, o: Outcome): Outcome {
    Outcome(o.t, o.count, o.stopped, [e.served] + o.served, e.gone + o.removed, e.moved + o.skipped)
  }

  /** A pass from entry `i` on that looks for the flags `mask` and serves entries by `serve`. */
  function PassBy(serve: Step, t: Tables, i: nat, count: int, mask: set<Bit>, answers: seq<Answer>, max: nat): Outcome
    decreases max - i
  {
    if i >= |t.fds| || i >= max then Outcome(t, count, false, [], [], [])
    else if t.fds[i].revents * mask == {} then PassBy(serve, t, i + 1, count, mask, answers, max)
    else
      var e := serve(t, i, First(answers));
      Joined(e, if count <= 1 then Outcome(e.after, count - 1, true, [], [], [])
                else PassBy(serve, e.after, i + 1, count - 1, mask, Rest(answers), max))
  }

  /** How one iteration moves the pass `o` on: `rest` is what it still has to do. */
  lemma PassMovesOn(serve: Step, t: Tables, u: Tables, i: nat, count: int, left: int, mask: set<Bit>,
                    answers: seq<Answer>, unused: seq<Answer>, max: nat, o: Outcome, stop: bool)
    returns (rest: Outcome)
    requires i < |t.fds| && i < max && o == PassBy(serve, t, i, count, mask, answers, max)
    requires if Due(t, i, mask)
             then u == serve(t, i, First(answers)).after && left == count - 1 && unused == Rest(answers)
                  && stop == (left <= 0)
             else u == t && left == count && unused == answers && !stop
    ensures rest.t == o.t && rest.count == o.count
    ensures if stop then rest.t == u && rest.count == left
            else rest == PassBy(serve, u, i + 1, left, mask, unused, max)
  {
    rest := if stop then Outcome(u, left, true, [], [], []) else PassBy(serve, u, i + 1, left, mask, unused, max);
  }

  // ----- Events -----

  /** What one event amounts to. */
  ghost predicate Happened(t: Tables, i: nat, mask: set<Bit>, e: Event)
    requires Paired(t) && |e.after.fds| == |e.after.socks|
  {
    && Due(t, i, mask) && e.served == t.socks[i] && |e.moved| <= |e.gone|
    && Traced(t, e.after, [e.served] + e.gone) && Moves(t, e.after, mask, i + 1, e.moved)
  }

  lemma EditHappened(t: Tables, i: nat, mask: set<Bit>, u: Tables, gone: seq<Ptr>, moved: seq<Ptr>)
    requires Paired(t) && |u.fds| == |u.socks| && Due(t, i, mask) && |moved| <= |gone|
    requires Traced(t, u, [t.socks[i]] + gone) && Moves(t, u, mask, i + 1, moved)
    ensures Happened(t, i, mask, Event(t.socks[i], u, gone, moved))
  {
  }

  /** Serving an entry of good tables is an event, and leaves good tables. */
  ghost predicate Proper(serve: Step, good: Tables -> bool, mask: set<Bit>, max: nat) {
    && (forall t :: good(t) ==> Paired(t) && |t.fds| <= max)
    && (forall t, i, a :: good(t) && Due(t, i, mask) ==>
          good(serve(t, i, a).after) && Happened(t, i, mask, serve(t, i, a)))
  }

  /** A property that every event keeps is kept by the pass. */
  lemma {:induction false} PassKeeps(keep: Tables -> bool, serve: Step, t: Tables, i: nat, count: int,
                                     mask: set<Bit>, answers: seq<Answer>, max: nat)
    requires keep(t)
    requires forall u, k, a :: Due(u, k, mask) && keep(u) ==> keep(serve(u, k, a).after)
    ensures keep(PassBy(serve, t, i, count, mask, answers, max).t)
    decreases max - i
  {
    if i < |t.fds| && i < max {
      if t.fds[i].revents * mask == {} {
        PassKeeps(keep, serve, t, i + 1, count, mask, answers, max);
      } else if count > 1 {
        PassKeeps(keep, serve, serve(t, i, First(answers)).after, i + 1, count - 1, mask, Rest(answers), max);
      }
    }
  }

  /** Every event of the pass is fine. */
  ghost predicate AllEvents(fine: (Tables, nat, Answer) -> bool, serve: Step, t: Tables, i: nat, count: int,
                            mask: set<Bit>, answers: seq<Answer>, max: nat)
    decreases max - i
  {
    if i >= |t.fds| || i >= max then true
    else if t.fds[i].revents * mask == {} then AllEvents(fine, serve, t, i + 1, count, mask, answers, max)
    else
      && fine(t, i, First(answers))
      && (count > 1 ==>
            AllEvents(fine, serve, serve(t, i, First(answers)).after, i + 1, count - 1, mask, Rest(answers), max))
  }

  /** A property that every fine event keeps is kept by a pass of fine events. */
  lemma {:induction false} FinePassKeeps(keep: Tables -> bool, fine: (Tables, nat, Answer) -> bool, serve: Step,
                                         t: Tables, i: nat, count: int, mask: set<Bit>, answers: seq<Answer>, max: nat)
    requires keep(t) && AllEvents(fine, serve, t, i, count, mask, answers, max)
    requires forall u, k, a :: Due(u, k, mask) && keep(u) && fine(u, k, a) ==> keep(serve(u, k, a).after)
    ensures keep(PassBy(serve, t, i, count, mask, answers, max).t)
    decreases max - i
  {
    if i < |t.fds| && i < max {
      if t.fds[i].revents * mask == {} {
        FinePassKeeps(keep, fine, serve, t, i + 1, count, mask, answers, max);
      } else if count > 1 {
        FinePassKeeps(keep, fine, serve, serve(t, i, First(answers)).after, i + 1, count - 1, mask, Rest(answers), max);
      }
    }
  }

  lemma {:induction false} AllAreFine(fine: (Tables, nat, Answer) -> bool, serve: Step, t: Tables, i: nat, count: int,
                                      mask: set<Bit>, answers: seq<Answer>, max: nat)
    requires forall u, k, a :: fine(u, k, a)
    ensures AllEvents(fine, serve, t, i, count, mask, answers, max)
    decreases max - i
  {
    if i < |t.fds| && i < max {
      if t.fds[i].revents * mask == {} {
        AllAreFine(fine, serve, t, i + 1, count, mask, answers, max);
      } else if count > 1 {
        AllAreFine(fine, serve, serve(t, i, First(answers)).after, i + 1, count - 1, mask, Rest(answers), max);
      }
    }
  }

  // ----- The laws of a pass -----

  /** After a pass every flag is as it was, but for those of the sockets served or removed,
      which are down. */
  ghost predicate Settles(t: Tables, o: Outcome)
    requires |t.fds| == |t.socks| && |o.t.fds| == |o.t.socks|
  {
    forall x: Ptr :: Flags(o.t, x) == if x in o.served || x in o.removed then {} else Flags(t, x)
  }

  /** Only sockets with a wanted flag, from entry `i` on, are served or skipped. */
  ghost predicate TakesDue(t: Tables, i: nat, mask: set<Bit>, o: Outcome)
    requires |t.fds| == |t.socks|
  {
    forall x: Ptr :: x in o.served || x in o.skipped ==> Flags(t, x) * mask != {} && FirstSlot(t.socks, x) >= i
  }

  predicate Distinct(s: seq<Ptr>) {
    forall a, b :: 0 <= a < b < |s| ==> s[a] != s[b]
  }

  /** Of the sockets with a wanted flag from entry `i` on that are not removed, a pass that runs
      to its end serves exactly those that no removal moves behind the cursor. */
  ghost predicate ServesRest(t: Tables, i: nat, mask: set<Bit>, o: Outcome)
    requires |t.fds| == |t.socks|
  {
    !o.stopped ==>
      forall x: Ptr :: Flags(t, x) * mask != {} && FirstSlot(t.socks, x) >= i && x !in o.removed ==>
        (x in o.served <==> x !in o.skipped)
  }

  /** The event count goes down by one for each socket served, and covers the raised flags; so a
      pass that stops at zero leaves no flag up. */
  predicate Covers(count: int, o: Outcome)
    requires |o.t.fds| == |o.t.socks|
  {
    && o.count == count - |o.served| && |Raised(o.t)| <= o.count
    && (o.stopped ==> o.count == 0 && Raised(o.t) == {})
  }

  /** All of these; no socket is served twice; and each removal makes the pass skip at most one
      socket. */
  ghost predicate Lawful(t: Tables, i: nat, count: int, mask: set<Bit>, o: Outcome)
    requires |t.fds| == |t.socks| && |o.t.fds| == |o.t.socks|
  {
    && Settles(t, o) && TakesDue(t, i, mask, o) && Distinct(o.served)
    && ServesRest(t, i, mask, o) && |o.skipped| <= |o.removed|
    && (|Raised(t)| <= count ==> Covers(count, o))
  }

  lemma EndIsLawful(t: Tables, i: nat, count: int, mask: set<Bit>)
    requires |t.fds| == |t.socks| && i >= |t.fds|
    ensures Lawful(t, i, count, mask, Outcome(t, count, false, [], [], []))
  {
  }

  lemma StopIsLawful(u: Tables, i: nat, count: int, mask: set<Bit>)
    requires |u.fds| == |u.socks| && count <= 1
    ensures Lawful(u, i, count - 1, mask, Outcome(u, count - 1, true, [], [], []))
  {
  }

  lemma PassingIsLawful(t: Tables, i: nat, count: int, mask: set<Bit>, o: Outcome)
    requires Paired(t) && |o.t.fds| == |o.t.socks| && i < |t.fds| && t.fds[i].revents * mask == {}
    requires Lawful(t, i + 1, count, mask, o)
    ensures Lawful(t, i, count, mask, o)
  {
    FlagsAt(t, i);
  }

  lemma JoinedSettles(t: Tables, i: nat, mask: set<Bit>, e: Event, o: Outcome)
    requires Paired(t) && |e.after.fds| == |e.after.socks| && |o.t.fds| == |o.t.socks|
    requires Happened(t, i, mask, e) && Settles(e.after, o)
    ensures Settles(t, Joined(e, o))
  {
    var o' := Joined(e, o);
    forall x: Ptr
      ensures Flags(o'.t, x) == if x in o'.served || x in o'.removed then {} else Flags(t, x)
    {
      assert Flags(e.after, x) == if x in [e.served] + e.gone then {} else Flags(t, x);
    }
  }

  lemma JoinedTakesDue(t: Tables, i: nat, mask: set<Bit>, e: Event, o: Outcome)
    requires Paired(t) && |e.after.fds| == |e.after.socks| && Happened(t, i, mask, e)
    requires TakesDue(e.after, i + 1, mask, o) && Distinct(o.served)
    ensures TakesDue(t, i, mask, Joined(e, o)) && Distinct(Joined(e, o).served)
    ensures e.served !in o.skipped && e.served !in e.moved
  {
    FlagsAt(t, i);
    assert Flags(e.after, e.served) == {};
    forall x: Ptr | x in o.served || x in o.skipped
      ensures Flags(t, x) * mask != {} && FirstSlot(t.socks, x) >= i
    {
      assert Flags(e.after, x) != {};
    }
  }

  lemma JoinedServes(t: Tables, i: nat, mask: set<Bit>, e: Event, o: Outcome, x: Ptr)
    requires Paired(t) && |e.after.fds| == |e.after.socks| && Happened(t, i, mask, e) && !o.stopped
    requires TakesDue(e.after, i + 1, mask, o) && Distinct(o.served) && ServesRest(e.after, i + 1, mask, o)
    requires Flags(t, x) * mask != {} && FirstSlot(t.socks, x) >= i && x !in e.gone && x !in o.removed
    ensures var o' := Joined(e, o); x in o'.served <==> x !in o'.skipped
  {
    FlagsAt(t, i);
    JoinedTakesDue(t, i, mask, e, o);
    assert Flags(e.after, x) == if x == e.served then {} else Flags(t, x);
    if x != e.served {
      assert t.socks[FirstSlot(t.socks, x)] == x;
      assert FirstSlot(e.after.socks, x) < i + 1 <==> x in e.moved;
    }
  }

  /** One event answers at least one raised flag. */
  lemma EventLowersRaised(t: Tables, i: nat, mask: set<Bit>, e: Event)
    requires Paired(t) && |e.after.fds| == |e.after.socks| && Happened(t, i, mask, e)
    ensures |Raised(e.after)| < |Raised(t)|
  {
    TracedLowers(t, e.after, [e.served] + e.gone);
    FlagsAt(t, i);
    assert e.served in Raised(t) && e.served in [e.served] + e.gone;
    SubsetCard(Raised(e.after), Raised(t) - {e.served});
  }

  lemma JoinedCovers(t: Tables, i: nat, count: int, mask: set<Bit>, e: Event, o: Outcome)
    requires Paired(t) && |e.after.fds| == |e.after.socks| && |o.t.fds| == |o.t.socks| && Happened(t, i, mask, e)
    requires |Raised(e.after)| <= count - 1 ==> Covers(count - 1, o)
    ensures |Raised(t)| <= count ==> Covers(count, Joined(e, o))
  {
    EventLowersRaised(t, i, mask, e);
  }

  lemma JoinedIsLawful(t: Tables, i: nat, count: int, mask: set<Bit>, e: Event, o: Outcome)
    requires Paired(t) && |e.after.fds| == |e.after.socks| && |o.t.fds| == |o.t.socks|
    requires Happened(t, i, mask, e) && Lawful(e.after, i + 1, count - 1, mask, o)
    ensures Lawful(t, i, count, mask, Joined(e, o))
  {
    var o' := Joined(e, o);
    JoinedSettles(t, i, mask, e, o);
    JoinedTakesDue(t, i, mask, e, o);
    JoinedCovers(t, i, count, mask, e, o);
    assert ServesRest(t, i, mask, o') by {
      forall x: Ptr | !o.stopped && Flags(t, x) * mask != {} && FirstSlot(t.socks, x) >= i && x !in o'.removed
        ensures x in o'.served <==> x !in o'.skipped
      {
        JoinedServes(t, i, mask, e, o, x);
      }
    }
  }

  /** Every pass obeys the laws. */
  lemma {:induction false} PassIsLawful(serve: Step, good: Tables -> bool, t: Tables, i: nat, count: int,
                                        mask: set<Bit>, answers: seq<Answer>, max: nat)
    requires good(t) && Proper(serve, good, mask, max)
    ensures var o := PassBy(serve, t, i, count, mask, answers, max); good(o.t) && Lawful(t, i, count, mask, o)
    decreases max - i
  {
    if i >= |t.fds| {
      EndIsLawful(t, i, count, mask);
    } else if t.fds[i].revents * mask == {} {
      PassIsLawful(serve, good, t, i + 1, count, mask, answers, max);
      PassingIsLawful(t, i, count, mask, PassBy(serve, t, i + 1, count, mask, answers, max));
    } else {
      var e := serve(t, i, First(answers));
      if count <= 1 {
        StopIsLawful(e.after, i + 1, count, mask);
        JoinedIsLawful(t, i, count, mask, e, Outcome(e.after, count - 1, true, [], [], []));
      } else {
        PassIsLawful(serve, good, e.after, i + 1, count - 1, mask, Rest(answers), max);
        JoinedIsLawful(t, i, count, mask, e, PassBy(serve, e.after, i + 1, count - 1, mask, Rest(answers), max));
      }
    }
  }

  /** What this says of a whole pass when the event count covers the flags: a socket with a wanted
      flag that is not removed is served or, if the pass runs to its end, skipped, and there are
      no more skipped sockets than removals; if the pass stops early all of them are served. No
      socket is served twice. */
  ghost predicate Complete(t: Tables, count: int, mask: set<Bit>, o: Outcome)
    requires |t.fds| == |t.socks| && |o.t.fds| == |o.t.socks|
  {
    && Covers(count, o) && Settles(t, o) && Distinct(o.served) && |o.skipped| <= |o.removed|
    && (forall x: Ptr :: Flags(t, x) * mask != {} && x !in o.removed ==>
          (x in o.served <==> Flags(o.t, x) == {}) && (x in o.served <==> o.stopped || x !in o.skipped))
  }

  lemma LawfulIsComplete(t: Tables, count: int, mask: set<Bit>, o: Outcome)
    requires |t.fds| == |t.socks| && |o.t.fds| == |o.t.socks| && |Raised(t)| <= count && Lawful(t, 0, count, mask, o)
    ensures Complete(t, count, mask, o)
  {
    forall x: Ptr | Flags(t, x) * mask != {} && x !in o.removed
      ensures x in o.served <==> Flags(o.t, x) == {}
      ensures x in o.served <==> o.stopped || x !in o.skipped
    {
      assert Flags(o.t, x) == if x in o.served then {} else Flags(t, x);
      if o.stopped {
        NoneRaised(o.t, x);
      }
    }
  }

  lemma NoneRaised(t: Tables, x: Ptr)
    requires |t.fds| == |t.socks| && Raised(t) == {}
    ensures Flags(t, x) == {}
  {
    assert x !in Raised(t);
  }

  // ----- The passes of the thread -----

  /** The event at entry `i` of the read or the write pass. */
  function EventAt(t: Tables, i: nat, kind: Kind, a: Answer, rules: Rules, max: nat): Event
    requires Ok(t, max) && i < |t.fds|
  {
    Event(t.socks[i], Effect(t, i, kind, a, rules, max), Gone(t, i, kind, a, rules, max),
          Moved(t, i, kind, a, rules, max, Mask(kind), i + 1))
  }

  function Serve(kind: Kind, rules: Rules, max: nat): Step {
    (t: Tables, i: nat, a: Answer) =>
      if Ok(t, max) && i < |t.fds| then EventAt(t, i, kind, a, rules, max) else Event(0, t, [], [])
  }

  /** The read or the write pass. */
  function Pass(t: Tables, count: int, kind: Kind, answers: seq<Answer>, rules: Rules, max: nat): (o: Outcome)
    requires Ok(t, max)
    ensures Ok(o.t, max)
  {
    ServeIsProper(kind, rules, max);
    PassIsLawful(Serve(kind, rules, max), u => Ok(u, max), t, 0, count, Mask(kind), answers, max);
    PassBy(Serve(kind, rules, max), t, 0, count, Mask(kind), answers, max)
  }

  lemma EffectHappened(t: Tables, i: nat, kind: Kind, a: Answer, rules: Rules, max: nat)
    requires Ok(t, max) && Due(t, i, Mask(kind))
    ensures var e := EventAt(t, i, kind, a, rules, max);
            |e.after.fds| == |e.after.socks| && Happened(t, i, Mask(kind), e)
  {
    EffectIsTraced(t, i, kind, a, rules, max);
    EffectMoves(t, i, kind, a, rules, max, Mask(kind), i + 1);
    EditHappened(t, i, Mask(kind), Effect(t, i, kind, a, rules, max), Gone(t, i, kind, a, rules, max),
                 Moved(t, i, kind, a, rules, max, Mask(kind), i + 1));
  }

  lemma ServeIs(t: Tables, i: nat, kind: Kind, a: Answer, rules: Rules, max: nat)
    requires Ok(t, max) && i < |t.fds|
    ensures var u := Serve(kind, rules, max)(t, i, a).after; u == Effect(t, i, kind, a, rules, max) && Ok(u, max)
  {
    EffectKeepsOk(t, i, kind, a, rules, max);
  }

  lemma ServeIsProper(kind: Kind, rules: Rules, max: nat)
    ensures Proper(Serve(kind, rules, max), t => Ok(t, max), Mask(kind), max)
  {
    forall t: Tables, i: nat, a: Answer | Ok(t, max) && Due(t, i, Mask(kind))
      ensures Ok(Serve(kind, rules, max)(t, i, a).after, max)
      ensures Happened(t, i, Mask(kind), Serve(kind, rules, max)(t, i, a))
    {
      EffectKeepsOk(t, i, kind, a, rules, max);
      EffectHappened(t, i, kind, a, rules, max);
    }
  }

  /** Every read and every write pass is complete in this sense. */
  lemma PassIsComplete(t: Tables, count: int, kind: Kind, answers: seq<Answer>, rules: Rules, max: nat)
    requires Ok(t, max) && |Raised(t)| <= count
    ensures Complete(t, count, Mask(kind), Pass(t, count, kind, answers, rules, max))
  {
    ServeIsProper(kind, rules, max);
    PassIsLawful(Serve(kind, rules, max), u => Ok(u, max), t, 0, count, Mask(kind), answers, max);
    LawfulIsComplete(t, count, Mask(kind), Pass(t, count, kind, answers, rules, max));
  }

  lemma PassKeepsWriters(t: Tables, count: int, kind: Kind, answers: seq<Answer>, rules: Rules, max: nat)
    requires Ok(t, max) && WritersOk(t) && rules.roomy
    ensures WritersOk(Pass(t, count, kind, answers, rules, max).t)
  {
    var serve := Serve(kind, rules, max);
    forall u: Tables, k: nat, a: Answer | Ok(u, max) && Due(u, k, Mask(kind)) && WritersOk(u)
      ensures Ok(serve(u, k, a).after, max) && WritersOk(serve(u, k, a).after)
    {
      EffectKeepsOk(u, k, kind, a, rules, max);
    }
    PassKeeps(u => Ok(u, max) && WritersOk(u), serve, t, 0, count, Mask(kind), answers, max);
  }

  lemma PassKeepsReaders(t: Tables, count: int, kind: Kind, answers: seq<Answer>, rules: Rules, max: nat)
    requires Ok(t, max) && ReadersPolled(t) && rules.roomy
    ensures ReadersPolled(Pass(t, count, kind, answers, rules, max).t)
  {
    var serve := Serve(kind, rules, max);
    forall u: Tables, k: nat, a: Answer | Ok(u, max) && Due(u, k, Mask(kind)) && ReadersPolled(u)
      ensures Ok(serve(u, k, a).after, max) && ReadersPolled(serve(u, k, a).after)
    {
      EffectKeepsOk(u, k, kind, a, rules, max);
      EffectKeepsReaders(u, k, kind, a, rules, max);
    }
    PassKeeps(u => Ok(u, max) && ReadersPolled(u), serve, t, 0, count, Mask(kind), answers, max);
  }

  /** All handlers of a read pass are mindful. */
  ghost predicate MindfulPass(t: Tables, count: int, answers: seq<Answer>, rules: Rules, max: nat) {
    AllEvents(IsMindful(rules, max), Serve(Reading, rules, max), t, 0, count, READ_BITS, answers, max)
  }

  function IsMindful(rules: Rules, max: nat): (Tables, nat, Answer) -> bool {
    (t: Tables, i: nat, a: Answer) => Ok(t, max) && i < |t.fds| ==> Mindful(t, i, a, rules, max)
  }

  lemma OwnPassIsMindful(t: Tables, count: int, answers: seq<Answer>, rules: Rules, max: nat)
    requires rules.own
    ensures MindfulPass(t, count, answers, rules, max)
  {
    forall u: Tables, i: nat, a: Answer | Ok(u, max) && i < |u.fds|
      ensures Mindful(u, i, a, rules, max)
    {
      OwnIsMindful(u, i, a, rules, max);
    }
    AllAreFine(IsMindful(rules, max), Serve(Reading, rules, max), t, 0, count, READ_BITS, answers, max);
  }

  lemma ReadPassAttends(t: Tables, count: int, answers: seq<Answer>, rules: Rules, max: nat)
    requires Ok(t, max) && WritersOk(t) && rules.roomy && NoLost(t) && MindfulPass(t, count, answers, rules, max)
    ensures NoLost(Pass(t, count, Reading, answers, rules, max).t)
  {
    var serve, fine := Serve(Reading, rules, max), IsMindful(rules, max);
    forall u: Tables, k: nat, a: Answer |
      Ok(u, max) && Due(u, k, READ_BITS) && WritersOk(u) && NoLost(u) && fine(u, k, a)
      ensures Ok(serve(u, k, a).after, max) && WritersOk(serve(u, k, a).after) && NoLost(serve(u, k, a).after)
    {
      EffectKeepsOk(u, k, Reading, a, rules, max);
      EffectAttends(u, k, Reading, a, rules, max);
    }
    FinePassKeeps(u => Ok(u, max) && WritersOk(u) && NoLost(u), fine, serve, t, 0, count, READ_BITS, answers, max);
  }

  lemma WritePassAttends(t: Tables, count: int, answers: seq<Answer>, rules: Rules, max: nat)
    requires Ok(t, max) && WritersOk(t) && rules.roomy && NoLost(t)
    ensures NoLost(Pass(t, count, Writing, answers, rules, max).t)
  {
    var serve := Serve(Writing, rules, max);
    forall u: Tables, k: nat, a: Answer | Ok(u, max) && Due(u, k, Mask(Writing)) && WritersOk(u) && NoLost(u)
      ensures Ok(serve(u, k, a).after, max) && WritersOk(serve(u, k, a).after) && NoLost(serve(u, k, a).after)
    {
      EffectKeepsOk(u, k, Writing, a, rules, max);
      EffectAttends(u, k, Writing, a, rules, max);
    }
    PassKeeps(u => Ok(u, max) && WritersOk(u) && NoLost(u), serve, t, 0, count, Mask(Writing), answers, max);
  }

  /** No output is lost in a read pass if all handlers are mindful, nor in any write pass. */
  lemma PassAttends(t: Tables, count: int, kind: Kind, answers: seq<Answer>, rules: Rules, max: nat)
    requires Ok(t, max) && WritersOk(t) && rules.roomy && NoLost(t)
    requires kind.Reading? ==> MindfulPass(t, count, answers, rules, max)
    ensures NoLost(Pass(t, count, kind, answers, rules, max).t)
  {
    if kind.Reading? {
      ReadPassAttends(t, count, answers, rules, max);
    } else {
      WritePassAttends(t, count, answers, rules, max);
    }
  }

  /** Nothing is queued on the socket, and a read pass does not look for it. */
  predicate OutOfReach(t: Tables, kind: Kind, l: Ptr, c: Conn) {
    Tended(t, l, c) && |t.fds| == |t.socks| && (kind.Reading? ==> Flags(t, l) * READ_BITS == {})
  }

  lemma EffectLeavesAlone(t: Tables, i: nat, kind: Kind, a: Answer, rules: Rules, max: nat, l: Ptr, c: Conn)
    requires Ok(t, max) && Due(t, i, Mask(kind)) && rules.spared == l && OutOfReach(t, kind, l, c)
    ensures OutOfReach(Effect(t, i, kind, a, rules, max), kind, l, c)
  {
    EffectIsTraced(t, i, kind, a, rules, max);
    FlagsAt(t, i);
    if kind.Reading? {
      ReadEffectTendsIff(t, i, a, rules, max, l, c);
    } else {
      WriteEffectTends(t, i, a, max, l, c);
    }
  }

  /** A socket that handlers spare and that has no read flag survives the read pass; and if
      nothing is queued on it, the write pass. */
  lemma PassTends(t: Tables, count: int, kind: Kind, answers: seq<Answer>, rules: Rules, max: nat, l: Ptr, c: Conn)
    requires Ok(t, max) && rules.spared == l && OutOfReach(t, kind, l, c)
    ensures Tended(Pass(t, count, kind, answers, rules, max).t, l, c)
  {
    var serve := Serve(kind, rules, max);
    forall u: Tables, k: nat, a: Answer | Ok(u, max) && Due(u, k, Mask(kind)) && OutOfReach(u, kind, l, c)
      ensures Ok(serve(u, k, a).after, max) && OutOfReach(serve(u, k, a).after, kind, l, c)
    {
      EffectKeepsOk(u, k, kind, a, rules, max);
      EffectLeavesAlone(u, k, kind, a, rules, max, l, c);
    }
    PassKeeps(u => Ok(u, max) && OutOfReach(u, kind, l, c), serve, t, 0, count, Mask(kind), answers, max);
  }

  lemma PassLeavesDeleted(t: Tables, count: int, kind: Kind, answers: seq<Answer>, rules: Rules, max: nat, x: Object)
    requires Ok(t, max) && Deleted(t, x)
    ensures Deleted(Pass(t, count, kind, answers, rules, max).t, x)
  {
    var serve := Serve(kind, rules, max);
    forall u: Tables, k: nat, a: Answer | Ok(u, max) && Due(u, k, Mask(kind)) && Deleted(u, x)
      ensures Ok(serve(u, k, a).after, max) && Deleted(serve(u, k, a).after, x)
    {
      EffectKeepsOk(u, k, kind, a, rules, max);
      EffectAges(u, k, kind, a, rules, max);
    }
    PassKeeps(u => Ok(u, max) && Deleted(u, x), serve, t, 0, count, Mask(kind), answers, max);
  }

  const IDLE: Answer := Answer(Interim, [], true, 0)
  const FAILURE: Answer := Answer(False, [], true, 0)

  /** The steps of a pass can lose socket `l`: a receiver that reports nothing leaves all but the
      flag as it was, and a failure on `l` loses it for good. */
  ghost predicate Losable(serve: Step, good: Tables -> bool, lost: Tables -> bool, mask: set<Bit>, max: nat, l: Ptr) {
    && (forall t :: good(t) ==> Paired(t) && |t.fds| <= max)
    && (forall t, i: nat, a :: good(t) && Due(t, i, mask) ==>
          good(serve(t, i, a).after) && (lost(t) ==> lost(serve(t, i, a).after)))
    && (forall t, i: nat :: good(t) && Due(t, i, mask) ==> serve(t, i, IDLE).after == Cleared(t, i))
    && (forall t, i: nat :: good(t) && Due(t, i, mask) && t.socks[i] == l ==> lost(serve(t, i, FAILURE).after))
  }

  /** Then some answers lose it in a pass if it has a wanted flag up: nothing is reported for the
      entries before it, and a failure for its own. */
  lemma {:induction false} DueCanBeLost(serve: Step, good: Tables -> bool, lost: Tables -> bool, t: Tables, i: nat,
                                        count: int, mask: set<Bit>, max: nat, l: Ptr)
    returns (answers: seq<Answer>)
    requires Losable(serve, good, lost, mask, max, l) && good(t) && |t.fds| == |t.socks| && |Raised(t)| <= count
    requires i <= FirstSlot(t.socks, l) && Flags(t, l) * mask != {}
    ensures lost(PassBy(serve, t, i, count, mask, answers, max).t)
    decreases max - i
  {
    RaisedCounts(t, l);
    if i == FirstSlot(t.socks, l) {
      answers := [FAILURE] + [];
      FailureLoses(serve, good, lost, t, i, count, mask, max, l);
    } else if t.fds[i].revents * mask == {} {
      answers := DueCanBeLost(serve, good, lost, t, i + 1, count, mask, max, l);
      PassLoses(serve, lost, t, i, count, mask, answers, max);
    } else {
      ClearedCounts(t, i, mask, l);
      IdleIsGood(serve, good, lost, t, i, mask, max, l);
      var rest := DueCanBeLost(serve, good, lost, Cleared(t, i), i + 1, count - 1, mask, max, l);
      answers := [IDLE] + rest;
      IdleLoses(serve, lost, t, i, count, mask, rest, max);
    }
  }

  lemma PassLoses(serve: Step, lost: Tables -> bool, t: Tables, i: nat, count: int, mask: set<Bit>,
                  answers: seq<Answer>, max: nat)
    requires i < |t.fds| && i < max && t.fds[i].revents * mask == {}
    requires lost(PassBy(serve, t, i + 1, count, mask, answers, max).t)
    ensures lost(PassBy(serve, t, i, count, mask, answers, max).t)
  {
  }

  lemma IdleLoses(serve: Step, lost: Tables -> bool, t: Tables, i: nat, count: int, mask: set<Bit>,
                  rest: seq<Answer>, max: nat)
    requires Due(t, i, mask) && i < max && count > 1 && serve(t, i, IDLE).after == Cleared(t, i)
    requires lost(PassBy(serve, Cleared(t, i), i + 1, count - 1, mask, rest, max).t)
    ensures lost(PassBy(serve, t, i, count, mask, [IDLE] + rest, max).t)
  {
    PassServes(serve, t, i, count, mask, IDLE, rest, max);
  }

  lemma IdleIsGood(serve: Step, good: Tables -> bool, lost: Tables -> bool, t: Tables, i: nat,
                   mask: set<Bit>, max: nat, l: Ptr)
    requires Losable(serve, good, lost, mask, max, l) && good(t) && Due(t, i, mask)
    ensures serve(t, i, IDLE).after == Cleared(t, i) && good(Cleared(t, i))
  {
  }

  lemma FailureLoses(serve: Step, good: Tables -> bool, lost: Tables -> bool, t: Tables, i: nat, count: int,
                     mask: set<Bit>, max: nat, l: Ptr)
    requires Losable(serve, good, lost, mask, max, l) && good(t) && Due(t, i, mask) && t.socks[i] == l
    ensures lost(PassBy(serve, t, i, count, mask, [FAILURE] + [], max).t)
  {
    PassServes(serve, t, i, count, mask, FAILURE, [], max);
    PassKeeps(u => good(u) && lost(u), serve, serve(t, i, FAILURE).after, i + 1, count - 1, mask, [], max);
  }

  lemma ReadsAreLosable(rules: Rules, max: nat, x: Object)
    ensures Losable(Serve(Reading, rules, max), t => Ok(t, max) && x.id < t.created, t => Deleted(t, x),
                    READ_BITS, max, x.at)
  {
    var serve := Serve(Reading, rules, max);
    forall t: Tables, i: nat, a: Answer | Ok(t, max) && x.id < t.created && Due(t, i, READ_BITS)
      ensures Ok(serve(t, i, a).after, max) && x.id < serve(t, i, a).after.created
      ensures Deleted(t, x) ==> Deleted(serve(t, i, a).after, x)
    {
      ReadLeavesDeleted(t, i, a, rules, max, x);
    }
    forall t: Tables, i: nat | Ok(t, max) && x.id < t.created && Due(t, i, READ_BITS)
      ensures serve(t, i, IDLE).after == Cleared(t, i)
      ensures t.socks[i] == x.at ==> Deleted(serve(t, i, FAILURE).after, x)
    {
      IdleClears(t, i, rules, max);
      ServedIsLost(t, i, rules, max);
    }
  }

  /** A read pass can delete any object whose socket has a read flag up. */
  lemma DueSocketCanBeLost(t: Tables, count: int, rules: Rules, max: nat, x: Object) returns (answers: seq<Answer>)
    requires Ok(t, max) && |Raised(t)| <= count && x.id < t.created && Flags(t, x.at) * READ_BITS != {}
    ensures Deleted(Pass(t, count, Reading, answers, rules, max).t, x)
  {
    ReadsAreLosable(rules, max, x);
    answers := DueCanBeLost(Serve(Reading, rules, max), u => Ok(u, max) && x.id < u.created, u => Deleted(u, x),
                            t, 0, count, READ_BITS, max, x.at);
  }

  lemma ReadLeavesDeleted(t: Tables, i: nat, a: Answer, rules: Rules, max: nat, x: Object)
    requires Ok(t, max) && i < |t.fds| && x.id < t.created
    ensures var u := Serve(Reading, rules, max)(t, i, a).after;
            Ok(u, max) && x.id < u.created && (Deleted(t, x) ==> Deleted(u, x))
  {
    EffectKeepsOk(t, i, Reading, a, rules, max);
    EffectAges(t, i, Reading, a, rules, max);
  }

  lemma RaisedCounts(t: Tables, l: Ptr)
    requires |t.fds| == |t.socks| && Flags(t, l) != {}
    ensures |Raised(t)| > 0 && FirstSlot(t.socks, l) < |t.socks|
  {
    assert l in Raised(t);
  }

  /** The next event of a pass. */
  lemma PassServes(serve: Step, t: Tables, i: nat, count: int, mask: set<Bit>, a: Answer, rest: seq<Answer>, max: nat)
    requires Due(t, i, mask) && i < max
    ensures var u := serve(t, i, a).after;
            PassBy(serve, t, i, count, mask, [a] + rest, max).t
            == if count <= 1 then u else PassBy(serve, u, i + 1, count - 1, mask, rest, max).t
  {
    assert First([a] + rest) == a && Rest([a] + rest) == rest;
  }

  lemma ServedIsLost(t: Tables, i: nat, rules: Rules, max: nat)
    requires Ok(t, max) && i < |t.fds|
    ensures var u := Serve(Reading, rules, max)(t, i, FAILURE).after;
            forall x: Object :: x.at == t.socks[i] && x.id < t.created ==> Deleted(u, x)
  {
    ClearedKeepsOk(t, i, max);
    DropKeepsOk(Cleared(t, i), t.socks[i], max);
  }

  lemma IdleClears(t: Tables, i: nat, rules: Rules, max: nat)
    requires Ok(t, max) && i < |t.fds|
    ensures Serve(Reading, rules, max)(t, i, IDLE).after == Cleared(t, i) && Ok(Cleared(t, i), max)
  {
    ClearedKeepsOk(t, i, max);
  }

  lemma ClearedCounts(t: Tables, i: nat, mask: set<Bit>, l: Ptr)
    requires Paired(t) && Due(t, i, mask) && i < FirstSlot(t.socks, l) < |t.socks| && Flags(t, l) != {}
    ensures var u := Cleared(t, i); Flags(u, l) == Flags(t, l) && 0 < |Raised(u)| < |Raised(t)|
  {
    ClearedIsTraced(t, i);
    FlagsAt(t, i);
    TracedLowers(t, Cleared(t, i), [t.socks[i]]);
    assert t.socks[i] in Raised(t) && t.socks[i] in [t.socks[i]];
    SubsetCard(Raised(Cleared(t, i)), Raised(t) - {t.socks[i]});
    assert Flags(Cleared(t, i), l) == Flags(t, l);
    RaisedCounts(Cleared(t, i), l);
  }

  /** Skipping does happen: of two readable sockets the first fails, the second is moved into
      its entry, and the pass ends with its flag still up. */
  lemma SkippedSocketWaits()
    ensures Ok(TwoDue(), 2) && |Raised(TwoDue())| == 2
    ensures Pass(TwoDue(), 2, Reading, [FAILURE], Rules(true, true, 0), 2)
         == Outcome(OneSkipped(), 1, false, [1], [1], [2])
  {
    TwoDueIsOk();
    var serve := Serve(Reading, Rules(true, true, 0), 2);
    FirstIsServed();
    SecondIsPassed(serve);
    FirstOfPass(serve, TwoDue(), Event(1, OneSkipped(), [1], [2]));
  }

  lemma FirstIsServed()
    ensures Serve(Reading, Rules(true, true, 0), 2)(TwoDue(), 0, FAILURE) == Event(1, OneSkipped(), [1], [2])
  {
    TwoDueIsOk();
    assert Cleared(TwoDue(), 0) == OneDue();
    FirstFails(TwoDue(), OneDue());
  }

  lemma FirstFails(t: Tables, c: Tables)
    requires t == TwoDue() && c == OneDue() && Cleared(t, 0) == c && Ok(t, 2)
    ensures Serve(Reading, Rules(true, true, 0), 2)(t, 0, FAILURE) == Event(1, OneSkipped(), [1], [2])
  {
    FailureDrops(t, 0, Rules(true, true, 0), 2);
    FirstIsDropped();
    LastIsMoved();
  }

  lemma SecondIsPassed(serve: Step)
    ensures PassBy(serve, OneSkipped(), 1, 1, READ_BITS, [], 2) == Outcome(OneSkipped(), 1, false, [], [], [])
  {
  }

  lemma FirstOfPass(serve: Step, t: Tables, e: Event)
    requires t == TwoDue() && serve(t, 0, FAILURE) == e
    ensures PassBy(serve, t, 0, 2, READ_BITS, [FAILURE], 2)
         == Joined(e, PassBy(serve, e.after, 1, 1, READ_BITS, [], 2))
  {
    assert In in t.fds[0].revents * READ_BITS;
    assert [FAILURE][1..] == [];
  }

  /** A receiver that fails costs its socket the entry. */
  lemma FailureDrops(t: Tables, i: nat, rules: Rules, max: nat)
    requires Ok(t, max) && i < |t.fds|
    ensures EventAt(t, i, Reading, FAILURE, rules, max)
         == Event(t.socks[i], Drop(Cleared(t, i), t.socks[i]), [t.socks[i]],
                  MovedByDrop(Cleared(t, i), t.socks[i], READ_BITS, i + 1))
  {
  }

  function TwoDue(): Tables {
    Tables([PollFd(7, READ_BITS, {In}), PollFd(8, READ_BITS, {In})], [1, 2], [1, 2], [0, 0],
           map[1 := Conn(7, 0, 0), 2 := Conn(8, 0, 1)], 2)
  }

  function OneSkipped(): Tables {
    Tables([PollFd(8, READ_BITS, {In})], [2], [0, 2], [0, 0], map[2 := Conn(8, 0, 1)], 2)
  }

  lemma TwoDueIsOk()
    ensures Ok(TwoDue(), 2) && |Raised(TwoDue())| == 2
  {
    TwoDueIsRaised();
    assert |{1, 2}| == 2;
  }

  lemma TwoDueIsRaised()
    ensures Raised(TwoDue()) == {1, 2}
  {
    var t := TwoDue();
    FlagsAt(t, 0);
    FlagsAt(t, 1);
  }

  /** When the entry of the first has been cleared. */
  function OneDue(): Tables {
    TwoDue().(fds := [PollFd(7, READ_BITS, {}), PollFd(8, READ_BITS, {In})])
  }

  lemma FirstIsDropped()
    ensures 1 in OneDue().heap && Drop(OneDue(), 1) == OneSkipped()
  {
    var c := OneDue();
    assert FirstFd(c.fds, 7) == 0 && FirstSlot(c.readers, 1) == 0 && FirstSlot(c.writers, 1) == 2;
    var u := Drop(c, 1);
    assert u.socks == [2] && u.fds == [PollFd(8, READ_BITS, {In})] && u.readers == [0, 2];
    assert u.heap == map[2 := Conn(8, 0, 1)];
  }

  lemma LastIsMoved()
    ensures MovedByDrop(OneDue(), 1, READ_BITS, 1) == [2]
  {
    var c := OneDue();
    FlagsAt(c, 1);
    FlagsAt(c, 0);
    assert In in {In} * READ_BITS;
  }
}
