/** What serving one flagged entry does to the tables, whatever its message handler does in
    between, and what a pass over the poll table adds up to. */
module Dispatch {
  import opened Handlers
  import opened PollFlags
  import opened PollTables
  import opened TableLaws

  datatype Receipt = False | True | Interim

  /** What the world answers while an entry is served. A read event: what the receiver reports,
      the deeds of the handler of a received message, and the handler's answer. A write event:
      how many bytes the network takes, and whether it failed. */
  datatype Answer = Answer(receipt: Receipt, deeds: seq<Deed>, ok: bool, sent: nat)

  datatype Kind = Reading | Writing

  /** The flags that each pass looks for. */
  function Mask(kind: Kind): set<Bit> {
    if kind.Reading? then READ_BITS else WRITE_BITS + {Pri}
  }

  // ----- One event -----

  /** The guard after a handler: is the pointer still in the entry it was taken from? */
  predicate Guard(t: Tables, i: nat, p: Ptr) {
    i < |t.socks| && t.socks[i] == p
  }

  /** What follows success: write interest if there is output. */
  function AfterMessage(t: Tables, i: nat, p: Ptr): Tables
    requires PollOk(t)
  {
    if Guard(t, i, p) && t.heap[p].pending > 0 && p !in t.writers then Enlist(t, i, p) else t
  }

  /** What follows failure: the socket is removed. */
  function AfterError(t: Tables, i: nat, p: Ptr): Tables
    requires PollOk(t)
  {
    if Guard(t, i, p) then Drop(t, p) else t
  }

  predicate Failed(a: Answer) {
    a.receipt.False? || (a.receipt.True? && !a.ok)
  }

  /** The tables when the handler of entry `i` has returned. */
  function Handled(t: Tables, i: nat, a: Answer, rules: Rules, max: nat): (h: Tables)
    requires Ok(t, max) && i < |t.fds|
    ensures Ok(h, max)
  {
    var c := Cleared(t, i);
    if a.receipt.True? then Acts(c, a.deeds, ObjectAt(t, t.socks[i]), rules, max) else c
  }

  /** What the thread does about socket `p` of entry `i` once its handler has returned. */
  function Reaction(t: Tables, i: nat, p: Ptr, a: Answer): Tables
    requires PollOk(t)
  {
    if Failed(a) then AfterError(t, i, p)
    else if a.receipt.True? then AfterMessage(t, i, p)
    else t
  }

  /** The effect of serving the readable entry `i`. */
  function ReadEffect(t: Tables, i: nat, a: Answer, rules: Rules, max: nat): Tables
    requires Ok(t, max) && i < |t.fds|
  {
    Reaction(Handled(t, i, a, rules, max), i, t.socks[i], a)
  }

  /** What a write leaves queued. */
  function Left(pending: nat, sent: nat): nat {
    if sent <= pending then pending - sent else 0
  }

  /** An empty queue cannot fail to be written. */
  predicate Wrote(pending: nat, a: Answer) {
    pending == 0 || a.ok
  }

  /** The tables when the socket of entry `i` has been written. */
  function Sent(t: Tables, i: nat, a: Answer): Tables
    requires PollOk(t) && i < |t.fds|
  {
    WithPending(Cleared(t, i), t.socks[i], Left(t.heap[t.socks[i]].pending, a.sent))
  }

  /** The effect of serving the writable entry `i`. */
  function WriteEffect(t: Tables, i: nat, a: Answer): Tables
    requires PollOk(t) && i < |t.fds|
  {
    var p, h := t.socks[i], Sent(t, i, a);
    if !Wrote(t.heap[p].pending, a) then Drop(h, p)
    else if h.heap[p].pending == 0 then Delist(h, i, p)
    else h
  }

  function Effect(t: Tables, i: nat, kind: Kind, a: Answer, rules: Rules, max: nat): Tables
    requires Ok(t, max) && i < |t.fds|
  {
    if kind.Reading? then ReadEffect(t, i, a, rules, max) else WriteEffect(t, i, a)
  }

  /** The sockets that the handler of entry `i` removes. */
  function GoneInHandler(t: Tables, i: nat, a: Answer, rules: Rules, max: nat): seq<Ptr>
    requires Ok(t, max) && i < |t.fds|
  {
    if a.receipt.True? then Removals(Cleared(t, i), a.deeds, ObjectAt(t, t.socks[i]), rules, max) else []
  }

  function GoneInReaction(t: Tables, i: nat, p: Ptr, a: Answer): seq<Ptr> {
    if Failed(a) && Guard(t, i, p) then [p] else []
  }

  /** The sockets removed by one event, in order. */
  function Gone(t: Tables, i: nat, kind: Kind, a: Answer, rules: Rules, max: nat): seq<Ptr>
    requires Ok(t, max) && i < |t.fds|
  {
    var p := t.socks[i];
    if kind.Writing? then (if Wrote(t.heap[p].pending, a) then [] else [p])
    else GoneInHandler(t, i, a, rules, max) + GoneInReaction(Handled(t, i, a, rules, max), i, p, a)
  }

  // ----- What a write comes to -----

  /** What becomes of the socket of the writable entry `i`, said outright. A failure to send what
      is queued removes it. Otherwise what the network took is no longer queued; as long as some
      is left, the interest in writing stays, and when none is, it goes, and nothing else does. */
  ghost predicate Written(t: Tables, u: Tables, i: nat, a: Answer)
    requires |t.fds| == |t.socks| && i < |t.fds| && t.socks[i] in t.heap
  {
    var p, n := t.socks[i], t.heap[t.socks[i]].pending;
    if n > 0 && !a.ok then
      && u.heap == t.heap - {p} && p !in u.socks && p !in u.readers && p !in u.writers
      && (forall q :: q != 0 && q != p ==> (q in u.socks <==> q in t.socks)
                                           && (q in u.readers <==> q in t.readers)
                                           && (q in u.writers <==> q in t.writers))
    else
      && p in u.heap && u.heap == t.heap[p := u.heap[p]]
      && u.heap[p].fd == t.heap[p].fd && u.heap[p].id == t.heap[p].id
      && (if a.sent <= n then u.heap[p].pending + a.sent == n else u.heap[p].pending == 0)
      && u.socks == t.socks && u.readers == t.readers && |u.fds| == |t.fds|
      && (forall j :: 0 <= j < |t.fds| && j != i ==> u.fds[j] == t.fds[j])
      && u.fds[i].fd == t.fds[i].fd && u.fds[i].revents == {}
      && if a.sent < n then u.fds[i].events == t.fds[i].events && u.writers == t.writers
         else
           && u.fds[i].events == t.fds[i].events - {Out, WrNorm, WrBand}
           && forall q :: q != 0 ==> (q in u.writers <==> q in t.writers && q != p)
  }

  lemma WriteIsWritten(t: Tables, i: nat, a: Answer, max: nat)
    requires Ok(t, max) && i < |t.fds|
    ensures Written(t, WriteEffect(t, i, a), i, a)
  {
    var p, h := t.socks[i], Sent(t, i, a);
    SentKeepsOk(t, i, a, max);
    if t.heap[p].pending > 0 && !a.ok {
      DropKeepsOk(h, p, max);
      assert h.heap - {p} == t.heap - {p};
    } else {
      FreeKeepsSlots(t.writers, p, t.heap);
    }
  }

  /** So a socket whose output is attended to stays among the writers, with all write bits and the
      read bits it had, exactly until everything is sent. */
  lemma WriterStaysIff(t: Tables, u: Tables, i: nat, a: Answer, max: nat)
    requires Ok(t, max) && WritersOk(t) && NoLost(t) && i < |t.fds| && Written(t, u, i, a)
    requires a.ok && t.heap[t.socks[i]].pending > 0
    ensures var p, read := t.socks[i], {In, RdNorm, RdBand, Pri};
            && (p in u.writers <==> a.sent < t.heap[p].pending)
            && ({Out, WrNorm, WrBand} <= u.fds[i].events <==> a.sent < t.heap[p].pending)
            && u.fds[i].events * read == t.fds[i].events * read
  {
    assert Out in {Out, WrNorm, WrBand};
    assert {Out, WrNorm, WrBand} * {In, RdNorm, RdBand, Pri} == {};
  }

  // ----- What the thread does when a handler has returned -----

  /** Said outright: after a failure the socket is removed, after success it gets the interest in
      writing if there is output and it is not yet among the writers; both only if it is still in
      its entry. Otherwise nothing happens. */
  ghost predicate Reacted(t: Tables, u: Tables, i: nat, p: Ptr, a: Answer) {
    var there := i < |t.socks| && t.socks[i] == p;
    if there && (a.receipt.False? || (a.receipt.True? && !a.ok)) then
      && u.heap == t.heap - {p} && p !in u.socks && p !in u.readers && p !in u.writers
      && (forall q :: q != 0 && q != p ==> (q in u.socks <==> q in t.socks)
                                           && (q in u.readers <==> q in t.readers)
                                           && (q in u.writers <==> q in t.writers))
    else if there && a.receipt.True? && p in t.heap && t.heap[p].pending > 0 && p !in t.writers then
      && u.heap == t.heap && u.readers == t.readers && u.socks == t.socks && |u.fds| == |t.fds| == |t.socks|
      && u.fds[i] == PollFd(t.fds[i].fd, t.fds[i].events + {Out, WrNorm, WrBand}, t.fds[i].revents)
      && (forall j :: 0 <= j < |t.fds| && j != i ==> u.fds[j] == t.fds[j])
      && (forall q :: q != 0 ==> (q in u.writers <==> q in t.writers || (q == p && 0 in t.writers)))
    else
      u == t
  }

  lemma ReactionIsReacted(t: Tables, i: nat, p: Ptr, a: Answer, max: nat)
    requires Ok(t, max)
    ensures Reacted(t, Reaction(t, i, p, a), i, p, a)
  {
    if Guard(t, i, p) {
      if Failed(a) {
        DropKeepsOk(t, p, max);
      } else {
        if p !in t.writers {
          FillKeepsSlots(t.writers, p, t.heap);
        }
      }
    }
  }

  // ----- What every event keeps -----

  lemma ReactionKeepsOk(t: Tables, i: nat, p: Ptr, a: Answer, max: nat)
    requires Ok(t, max)
    ensures Ok(Reaction(t, i, p, a), max) && (WritersOk(t) ==> WritersOk(Reaction(t, i, p, a)))
  {
    if Failed(a) {
      if Guard(t, i, p) {
        DropKeepsOk(t, p, max);
        if WritersOk(t) {
          DropKeepsWriters(t, p, max);
        }
      }
    } else if Reaction(t, i, p, a) != t {
      EnlistKeepsOk(t, i, p, max);
    }
  }

  lemma HandledKeepsWriters(t: Tables, i: nat, a: Answer, rules: Rules, max: nat)
    requires Ok(t, max) && i < |t.fds| && WritersOk(t) && rules.roomy
    ensures WritersOk(Handled(t, i, a, rules, max))
  {
    if a.receipt.True? {
      ActsKeepWriters(Cleared(t, i), a.deeds, ObjectAt(t, t.socks[i]), rules, max);
    }
  }

  lemma ReadEffectKeepsOk(t: Tables, i: nat, a: Answer, rules: Rules, max: nat)
    requires Ok(t, max) && i < |t.fds|
    ensures Ok(ReadEffect(t, i, a, rules, max), max)
    ensures WritersOk(t) && rules.roomy ==> WritersOk(ReadEffect(t, i, a, rules, max))
  {
    ReactionKeepsOk(Handled(t, i, a, rules, max), i, t.socks[i], a, max);
    if WritersOk(t) && rules.roomy {
      HandledKeepsWriters(t, i, a, rules, max);
    }
  }

  lemma SentKeepsOk(t: Tables, i: nat, a: Answer, max: nat)
    requires Ok(t, max) && i < |t.fds|
    ensures var h := Sent(t, i, a); Ok(h, max) && (WritersOk(t) ==> WritersOk(h)) && Guard(h, i, t.socks[i])
  {
    var p := t.socks[i];
    ClearedKeepsOk(t, i, max);
    PendingKeepsOk(Cleared(t, i), p, Left(t.heap[p].pending, a.sent), max);
  }

  lemma ClearedKeepsOk(t: Tables, i: nat, max: nat)
    requires Ok(t, max) && i < |t.fds|
    ensures Ok(Cleared(t, i), max) && (WritersOk(t) ==> WritersOk(Cleared(t, i)))
  {
  }

  lemma WriteEffectKeepsOk(t: Tables, i: nat, a: Answer, max: nat)
    requires Ok(t, max) && i < |t.fds|
    ensures Ok(WriteEffect(t, i, a), max) && (WritersOk(t) ==> WritersOk(WriteEffect(t, i, a)))
  {
    var p, h := t.socks[i], Sent(t, i, a);
    SentKeepsOk(t, i, a, max);
    if !Wrote(t.heap[p].pending, a) {
      DropKeepsOk(h, p, max);
      if WritersOk(t) {
        DropKeepsWriters(h, p, max);
      }
    } else {
      DelistKeepsOk(h, i, p, max);
    }
  }

  /** The tables stay consistent; and if handlers never let the poll table overflow, write
      interest and membership among the writers stay together. */
  lemma EffectKeepsOk(t: Tables, i: nat, kind: Kind, a: Answer, rules: Rules, max: nat)
    requires Ok(t, max) && i < |t.fds|
    ensures Ok(Effect(t, i, kind, a, rules, max), max)
    ensures WritersOk(t) && rules.roomy ==> WritersOk(Effect(t, i, kind, a, rules, max))
  {
    if kind.Writing? {
      WriteEffectKeepsOk(t, i, a, max);
    } else {
      ReadEffectKeepsOk(t, i, a, rules, max);
    }
  }

  /** And then every reader stays polled with its read bits. */
  lemma EffectKeepsReaders(t: Tables, i: nat, kind: Kind, a: Answer, rules: Rules, max: nat)
    requires Ok(t, max) && i < |t.fds| && ReadersPolled(t) && rules.roomy
    ensures ReadersPolled(Effect(t, i, kind, a, rules, max))
  {
    if kind.Writing? {
      WriteEffectKeepsReaders(t, i, a, max);
    } else {
      ClearedKeepsOk(t, i, max);
      WidenedKeepsReaders(t, Cleared(t, i));
      if a.receipt.True? {
        ActsKeepReaders(Cleared(t, i), a.deeds, ObjectAt(t, t.socks[i]), rules, max);
      }
      ReactionKeepsReaders(Handled(t, i, a, rules, max), i, t.socks[i], a, max);
    }
  }

  lemma WriteEffectKeepsReaders(t: Tables, i: nat, a: Answer, max: nat)
    requires Ok(t, max) && i < |t.fds| && ReadersPolled(t)
    ensures ReadersPolled(WriteEffect(t, i, a))
  {
    var p, h := t.socks[i], Sent(t, i, a);
    SentKeepsOk(t, i, a, max);
    WidenedKeepsReaders(t, h);
    if !Wrote(t.heap[p].pending, a) {
      DropKeepsReaders(h, p, max);
    } else {
      assert READ_BITS * WRITE_BITS == {};
      WidenedKeepsReaders(h, WriteEffect(t, i, a));
    }
  }

  lemma ReactionKeepsReaders(t: Tables, i: nat, p: Ptr, a: Answer, max: nat)
    requires Ok(t, max) && ReadersPolled(t)
    ensures ReadersPolled(Reaction(t, i, p, a))
  {
    if Failed(a) && Guard(t, i, p) {
      DropKeepsReaders(t, p, max);
    } else {
      WidenedKeepsReaders(t, Reaction(t, i, p, a));
    }
  }

  lemma EnlistGrows(t: Tables, i: nat, p: Ptr)
    requires |t.fds| == |t.socks| && i < |t.fds|
    ensures Grown(t, Enlist(t, i, p)) && Grown(t, Delist(t, i, p))
  {
  }

  lemma HandledIsTraced(t: Tables, i: nat, a: Answer, rules: Rules, max: nat)
    requires Ok(t, max) && i < |t.fds|
    ensures Traced(t, Handled(t, i, a, rules, max), [t.socks[i]] + GoneInHandler(t, i, a, rules, max))
  {
    var p, c := t.socks[i], Cleared(t, i);
    ClearedIsTraced(t, i);
    if a.receipt.True? {
      var me := ObjectAt(t, p);
      ActsAreTraced(c, a.deeds, me, rules, max);
      TracedThen(t, c, Acts(c, a.deeds, me, rules, max), [p], Removals(c, a.deeds, me, rules, max));
    }
  }

  lemma ReactionIsTraced(t: Tables, i: nat, p: Ptr, a: Answer, max: nat)
    requires Ok(t, max)
    ensures |Reaction(t, i, p, a).fds| == |Reaction(t, i, p, a).socks|
    ensures Traced(t, Reaction(t, i, p, a), GoneInReaction(t, i, p, a))
  {
    ReactionKeepsOk(t, i, p, a, max);
    if Failed(a) && Guard(t, i, p) {
      DropIsTraced(t, p, max);
    } else if Reaction(t, i, p, a) != t {
      EnlistGrows(t, i, p);
      GrownIsTraced(t, Reaction(t, i, p, a));
    }
  }

  lemma ReadEffectIsTraced(t: Tables, i: nat, a: Answer, rules: Rules, max: nat)
    requires Ok(t, max) && i < |t.fds|
    ensures |ReadEffect(t, i, a, rules, max).fds| == |ReadEffect(t, i, a, rules, max).socks|
    ensures Traced(t, ReadEffect(t, i, a, rules, max), [t.socks[i]] + Gone(t, i, Reading, a, rules, max))
  {
    var p, h := t.socks[i], Handled(t, i, a, rules, max);
    var r, s := GoneInHandler(t, i, a, rules, max), GoneInReaction(h, i, p, a);
    HandledIsTraced(t, i, a, rules, max);
    ReactionIsTraced(h, i, p, a, max);
    TracedThen(t, h, Reaction(h, i, p, a), [p] + r, s);
    Regroup([p], r, s);
  }

  lemma Regroup(a: seq<Ptr>, b: seq<Ptr>, c: seq<Ptr>)
    ensures a + b + c == a + (b + c)
  {
  }

  lemma WriteEffectIsTraced(t: Tables, i: nat, a: Answer, max: nat)
    requires Ok(t, max) && i < |t.fds|
    ensures |WriteEffect(t, i, a).fds| == |WriteEffect(t, i, a).socks|
    ensures Traced(t, WriteEffect(t, i, a),
                   [t.socks[i]] + if Wrote(t.heap[t.socks[i]].pending, a) then [] else [t.socks[i]])
  {
    var p, c, u := t.socks[i], Cleared(t, i), WriteEffect(t, i, a);
    WriteEffectKeepsOk(t, i, a, max);
    ClearedIsTraced(t, i);
    if !Wrote(t.heap[p].pending, a) {
      UnwrittenIsTraced(c, p, Left(t.heap[p].pending, a.sent), max);
      TracedThen(t, c, u, [p], [p]);
    } else {
      WrittenGrows(t, i, a, max);
      GrownIsTraced(c, u);
      TracedThen(t, c, u, [p], []);
    }
  }

  lemma WrittenGrows(t: Tables, i: nat, a: Answer, max: nat)
    requires Ok(t, max) && i < |t.fds| && Wrote(t.heap[t.socks[i]].pending, a)
    ensures |WriteEffect(t, i, a).fds| == |WriteEffect(t, i, a).socks| && Grown(Cleared(t, i), WriteEffect(t, i, a))
  {
  }

  lemma UnwrittenIsTraced(c: Tables, p: Ptr, left: nat, max: nat)
    requires Ok(c, max) && p in c.heap
    ensures var u := Drop(WithPending(c, p, left), p); |u.fds| == |u.socks| && Traced(c, u, [p])
  {
    assert Drop(WithPending(c, p, left), p) == Drop(c, p);
    DropIsTraced(c, p, max);
  }

  /** Serving an entry lowers its flags and those of the sockets removed meanwhile, no others,
      raises none, and moves no flagged socket to a later entry. */
  lemma EffectIsTraced(t: Tables, i: nat, kind: Kind, a: Answer, rules: Rules, max: nat)
    requires Ok(t, max) && i < |t.fds|
    ensures |Effect(t, i, kind, a, rules, max).fds| == |Effect(t, i, kind, a, rules, max).socks|
    ensures Traced(t, Effect(t, i, kind, a, rules, max), [t.socks[i]] + Gone(t, i, kind, a, rules, max))
  {
    if kind.Writing? {
      WriteEffectIsTraced(t, i, a, max);
    } else {
      ReadEffectIsTraced(t, i, a, rules, max);
    }
  }

  // ----- Who is moved behind the cursor -----

  function MovedInHandler(t: Tables, i: nat, a: Answer, rules: Rules, max: nat, mask: set<Bit>, k: nat): (m: seq<Ptr>)
    requires Ok(t, max) && i < |t.fds|
    ensures |m| <= |GoneInHandler(t, i, a, rules, max)|
  {
    if a.receipt.True? then MovedByAll(Cleared(t, i), a.deeds, ObjectAt(t, t.socks[i]), rules, max, mask, k) else []
  }

  function MovedInReaction(t: Tables, i: nat, p: Ptr, a: Answer, mask: set<Bit>, k: nat): (m: seq<Ptr>)
    requires |t.fds| == |t.socks|
    ensures |m| <= |GoneInReaction(t, i, p, a)|
  {
    if GoneInReaction(t, i, p, a) == [] then [] else MovedByDrop(t, p, mask, k)
  }

  /** The sockets that one event moves to an entry before `k` with a flag of `mask` up: at most
      one for each that it removes. */
  function Moved(t: Tables, i: nat, kind: Kind, a: Answer, rules: Rules, max: nat, mask: set<Bit>, k: nat)
    : (m: seq<Ptr>)
    requires Ok(t, max) && i < |t.fds|
    ensures |m| <= |Gone(t, i, kind, a, rules, max)|
  {
    var p := t.socks[i];
    if kind.Writing? then (if Wrote(t.heap[p].pending, a) then [] else MovedByDrop(Cleared(t, i), p, mask, k))
    else
      MovedInHandler(t, i, a, rules, max, mask, k)
      + MovedInReaction(Handled(t, i, a, rules, max), i, p, a, mask, k)
  }

  lemma HandledMoves(t: Tables, i: nat, a: Answer, rules: Rules, max: nat, mask: set<Bit>, k: nat)
    requires Ok(t, max) && i < |t.fds|
    ensures Moves(t, Handled(t, i, a, rules, max), mask, k, MovedInHandler(t, i, a, rules, max, mask, k))
  {
    var p, c := t.socks[i], Cleared(t, i);
    ClearedMovesNobody(t, i, mask, k);
    if a.receipt.True? {
      var me := ObjectAt(t, p);
      ClearedIsTraced(t, i);
      ActsAreTraced(c, a.deeds, me, rules, max);
      ActsMove(c, a.deeds, me, rules, max, mask, k);
      MovesThen(t, c, Acts(c, a.deeds, me, rules, max), [p], Removals(c, a.deeds, me, rules, max), mask, k,
                [], MovedByAll(c, a.deeds, me, rules, max, mask, k));
      assert [] + MovedByAll(c, a.deeds, me, rules, max, mask, k) == MovedByAll(c, a.deeds, me, rules, max, mask, k);
    }
  }

  lemma ReactionMoves(t: Tables, i: nat, p: Ptr, a: Answer, max: nat, mask: set<Bit>, k: nat)
    requires Ok(t, max)
    ensures |Reaction(t, i, p, a).fds| == |Reaction(t, i, p, a).socks|
    ensures Moves(t, Reaction(t, i, p, a), mask, k, MovedInReaction(t, i, p, a, mask, k))
  {
    ReactionKeepsOk(t, i, p, a, max);
    if Failed(a) && Guard(t, i, p) {
      DropMoves(t, p, max, mask, k);
    } else if Reaction(t, i, p, a) != t {
      EnlistGrows(t, i, p);
      GrownMovesNobody(t, Reaction(t, i, p, a), mask, k);
    } else {
      GrownMovesNobody(t, t, mask, k);
    }
  }

  lemma ReadEffectMoves(t: Tables, i: nat, a: Answer, rules: Rules, max: nat, mask: set<Bit>, k: nat)
    requires Ok(t, max) && i < |t.fds|
    ensures |ReadEffect(t, i, a, rules, max).fds| == |ReadEffect(t, i, a, rules, max).socks|
    ensures Moves(t, ReadEffect(t, i, a, rules, max), mask, k, Moved(t, i, Reading, a, rules, max, mask, k))
  {
    var p, h := t.socks[i], Handled(t, i, a, rules, max);
    HandledIsTraced(t, i, a, rules, max);
    HandledMoves(t, i, a, rules, max, mask, k);
    ReactionIsTraced(h, i, p, a, max);
    ReactionMoves(h, i, p, a, max, mask, k);
    MovesThen(t, h, Reaction(h, i, p, a), [p] + GoneInHandler(t, i, a, rules, max), GoneInReaction(h, i, p, a), mask, k,
              MovedInHandler(t, i, a, rules, max, mask, k), MovedInReaction(h, i, p, a, mask, k));
  }

  lemma WriteEffectMoves(t: Tables, i: nat, a: Answer, rules: Rules, max: nat, mask: set<Bit>, k: nat)
    requires Ok(t, max) && i < |t.fds|
    ensures |WriteEffect(t, i, a).fds| == |WriteEffect(t, i, a).socks|
    ensures Moves(t, WriteEffect(t, i, a), mask, k, Moved(t, i, Writing, a, rules, max, mask, k))
  {
    var p, c, u := t.socks[i], Cleared(t, i), WriteEffect(t, i, a);
    WriteEffectKeepsOk(t, i, a, max);
    if Wrote(t.heap[p].pending, a) {
      WrittenGrows(t, i, a, max);
      GrownIsTraced(c, u);
      GrownMovesNobody(c, u, mask, k);
      AfterClearing(t, i, u, mask, k, [], []);
    } else {
      UnwrittenIsTraced(c, p, Left(t.heap[p].pending, a.sent), max);
      UnwrittenMoves(c, p, Left(t.heap[p].pending, a.sent), max, mask, k);
      AfterClearing(t, i, u, mask, k, [p], MovedByDrop(c, p, mask, k));
    }
  }

  lemma AfterClearing(t: Tables, i: nat, u: Tables, mask: set<Bit>, k: nat, gone: seq<Ptr>, moved: seq<Ptr>)
    requires PollOk(t) && i < |t.fds| && |u.fds| == |u.socks|
    requires Traced(Cleared(t, i), u, gone) && Moves(Cleared(t, i), u, mask, k, moved)
    ensures Moves(t, u, mask, k, moved)
  {
    ClearedIsTraced(t, i);
    ClearedMovesNobody(t, i, mask, k);
    MovesThen(t, Cleared(t, i), u, [t.socks[i]], gone, mask, k, [], moved);
    assert [] + moved == moved;
  }

  lemma UnwrittenMoves(c: Tables, p: Ptr, left: nat, max: nat, mask: set<Bit>, k: nat)
    requires Ok(c, max) && p in c.heap
    ensures var u := Drop(WithPending(c, p, left), p);
            |u.fds| == |u.socks| && Moves(c, u, mask, k, MovedByDrop(c, p, mask, k))
  {
    assert Drop(WithPending(c, p, left), p) == Drop(c, p);
    DropMoves(c, p, max, mask, k);
  }

  /** One event moves behind the cursor exactly those. */
  lemma EffectMoves(t: Tables, i: nat, kind: Kind, a: Answer, rules: Rules, max: nat, mask: set<Bit>, k: nat)
    requires Ok(t, max) && i < |t.fds|
    ensures |Effect(t, i, kind, a, rules, max).fds| == |Effect(t, i, kind, a, rules, max).socks|
    ensures Moves(t, Effect(t, i, kind, a, rules, max), mask, k, Moved(t, i, kind, a, rules, max, mask, k))
  {
    if kind.Writing? {
      WriteEffectMoves(t, i, a, rules, max, mask, k);
    } else {
      ReadEffectMoves(t, i, a, rules, max, mask, k);
    }
  }

  // ----- Output -----

  /** When the thread has reacted to the return of a handler, all output is attended to exactly if
      the only output that was not is that of the socket that was served, still in its entry. */
  lemma OutputKeptIff(t: Tables, i: nat, p: Ptr, a: Answer, max: nat)
    requires Ok(t, max) && WritersOk(t) && !a.receipt.Interim?
    ensures NoLost(Reaction(t, i, p, a)) <==> AttendedBut(t, if Guard(t, i, p) then {p} else {})
  {
    if Guard(t, i, p) {
      if Failed(a) {
        DropKeepsOk(t, p, max);
      } else if t.heap[p].pending > 0 && p !in t.writers {
        EnlistKeepsOk(t, i, p, max);
      }
    }
  }

  lemma WriteEffectAttends(t: Tables, i: nat, a: Answer, max: nat)
    requires Ok(t, max) && WritersOk(t) && i < |t.fds| && NoLost(t)
    ensures NoLost(WriteEffect(t, i, a))
  {
    var p, h := t.socks[i], Sent(t, i, a);
    SentKeepsOk(t, i, a, max);
    if !Wrote(t.heap[p].pending, a) {
      DropKeepsOk(h, p, max);
    } else {
      DelistKeepsOk(h, i, p, max);
    }
  }

  /** The sockets that the handler of entry `i` has written to and neither checked nor removed. */
  function OwedInHandler(t: Tables, i: nat, a: Answer, rules: Rules, max: nat): set<Ptr>
    requires Ok(t, max) && i < |t.fds|
  {
    if a.receipt.True? then Owed(Cleared(t, i), a.deeds, ObjectAt(t, t.socks[i]), rules, max, {}) else {}
  }

  /** A mindful handler calls `CheckWriteOperation` on every socket it has written to, but need
      not on its own as long as that stays in its entry. */
  predicate Mindful(t: Tables, i: nat, a: Answer, rules: Rules, max: nat)
    requires Ok(t, max) && i < |t.fds|
  {
    var p := t.socks[i];
    OwedInHandler(t, i, a, rules, max) <= if Guard(Handled(t, i, a, rules, max), i, p) then {p} else {}
  }

  lemma OwnIsMindful(t: Tables, i: nat, a: Answer, rules: Rules, max: nat)
    requires Ok(t, max) && i < |t.fds| && rules.own
    ensures Mindful(t, i, a, rules, max)
  {
    if a.receipt.True? {
      ClearedKeepsOk(t, i, max);
      ActsOweOwn(Cleared(t, i), a.deeds, ObjectAt(t, t.socks[i]), i, rules, max, {});
    }
  }

  lemma ReadEffectAttends(t: Tables, i: nat, a: Answer, rules: Rules, max: nat)
    requires Ok(t, max) && WritersOk(t) && i < |t.fds| && NoLost(t) && rules.roomy && Mindful(t, i, a, rules, max)
    ensures NoLost(ReadEffect(t, i, a, rules, max))
  {
    var p, c := t.socks[i], Cleared(t, i);
    ClearedKeepsOk(t, i, max);
    if a.receipt.True? {
      ActsAttend(c, a.deeds, ObjectAt(t, p), rules, max, {});
      ActsKeepWriters(c, a.deeds, ObjectAt(t, p), rules, max);
    }
    if !a.receipt.Interim? {
      OutputKeptIff(Handled(t, i, a, rules, max), i, p, a, max);
    }
  }

  /** An event loses no output if its handler is mindful and the poll table does not overflow; a
      write event loses none in any case. */
  lemma EffectAttends(t: Tables, i: nat, kind: Kind, a: Answer, rules: Rules, max: nat)
    requires Ok(t, max) && WritersOk(t) && i < |t.fds| && NoLost(t)
    requires kind.Reading? ==> rules.roomy && Mindful(t, i, a, rules, max)
    ensures NoLost(Effect(t, i, kind, a, rules, max))
  {
    if kind.Writing? {
      WriteEffectAttends(t, i, a, max);
    } else {
      ReadEffectAttends(t, i, a, rules, max);
    }
  }

  lemma ActsCons(t: Tables, d: Deed, deeds: seq<Deed>, me: Object, rules: Rules, max: nat)
    requires Ok(t, max)
    ensures Ok(Act(t, d, me, rules, max), max)
    ensures Acts(t, [d] + deeds, me, rules, max) == Acts(Act(t, d, me, rules, max), deeds, me, rules, max)
  {
    ActKeepsOk(t, d, me, rules, max);
    assert ([d] + deeds)[1..] == deeds;
  }

  lemma OwedCons(t: Tables, d: Deed, deeds: seq<Deed>, me: Object, rules: Rules, max: nat, owed: set<Ptr>)
    requires Ok(t, max)
    ensures Ok(Act(t, d, me, rules, max), max)
    ensures Owed(t, [d] + deeds, me, rules, max, owed)
         == Owed(Act(t, d, me, rules, max), deeds, me, rules, max, OwedAfter(t, d, me, rules, max, owed))
  {
    ActKeepsOk(t, d, me, rules, max);
    assert ([d] + deeds)[1..] == deeds;
  }

  /** Two readers, sockets 1 and 2, with `bytes` queued on the second, whose flags are `flags`. */
  function TwoReaders(flags: set<Bit>, bytes: nat): Tables {
    Tables([PollFd(7, READ_BITS, {}), PollFd(8, READ_BITS, flags)], [1, 2], [1, 2], [0, 0],
           map[1 := Conn(7, 0, 0), 2 := Conn(8, bytes, 1)], 2)
  }

  /** Otherwise output can be lost: here the handler of socket 2, in the last entry,
      queues five bytes and removes socket 1. Socket 2 takes the free entry, the guard fails,
      and nobody attends to its output. */
  lemma MovedSocketIsForgotten()
    ensures var t := TwoReaders({In}, 0);
            var a := Answer(True, [Queue(2, 5)] + ([Remove(1)] + []), true, 0);
            && Ok(t, 2) && WritersOk(t) && NoLost(t)
            && ReadEffect(t, 1, a, Rules(false, true, 0), 2)
               == Tables([PollFd(8, READ_BITS, {})], [2], [0, 2], [0, 0], map[2 := Conn(8, 5, 1)], 2)
            && !NoLost(ReadEffect(t, 1, a, Rules(false, true, 0), 2))
  {
    TwoReadersAreOk({In}, 0);
    assert Cleared(TwoReaders({In}, 0), 1) == TwoReaders({}, 0);
    ForgottenDeeds();
  }

  function FirstWritten(): Tables {
    TwoReaders({}, 0).(heap := map[1 := Conn(7, 5, 0), 2 := Conn(8, 0, 1)])
  }

  /** Or it queues five bytes on socket 1 and does not check it. */
  lemma UncheckedOutputIsLost()
    ensures var t := TwoReaders({In}, 0);
            var a := Answer(True, [Queue(1, 5)] + [], true, 0);
            && Ok(t, 2) && WritersOk(t) && NoLost(t) && !Mindful(t, 1, a, Rules(false, true, 0), 2)
            && ReadEffect(t, 1, a, Rules(false, true, 0), 2)
               == FirstWritten()
            && !NoLost(ReadEffect(t, 1, a, Rules(false, true, 0), 2))
  {
    TwoReadersAreOk({In}, 0);
    assert Cleared(TwoReaders({In}, 0), 1) == TwoReaders({}, 0);
    UncheckedDeed();
    var a := Answer(True, [Queue(1, 5)] + [], true, 0);
    assert 1 in OwedInHandler(TwoReaders({In}, 0), 1, a, Rules(false, true, 0), 2);
  }

  lemma UncheckedDeed()
    ensures Ok(TwoReaders({}, 0), 2)
    ensures Owed(TwoReaders({}, 0), [Queue(1, 5)] + [], Object(2, 1), Rules(false, true, 0), 2, {}) == {1}
    ensures Acts(TwoReaders({}, 0), [Queue(1, 5)] + [], Object(2, 1), Rules(false, true, 0), 2) == FirstWritten()
    ensures !NoLost(FirstWritten())
  {
    var c, rules, me := TwoReaders({}, 0), Rules(false, true, 0), Object(2, 1);
    QueuedDeed();
    ActsCons(c, Queue(1, 5), [], me, rules, 2);
    OwedCons(c, Queue(1, 5), [], me, rules, 2, {});
    assert FirstWritten().heap[1].pending > 0 && 1 !in FirstWritten().writers;
  }

  /** But not if it checks it. */
  lemma CheckedOutputIsKept()
    ensures var t := TwoReaders({In}, 0);
            var a := Answer(True, [Queue(1, 5)] + ([Check(1)] + []), true, 0);
            && Ok(t, 2) && WritersOk(t) && NoLost(t) && Mindful(t, 1, a, Rules(false, true, 0), 2)
            && NoLost(ReadEffect(t, 1, a, Rules(false, true, 0), 2))
            && 1 in ReadEffect(t, 1, a, Rules(false, true, 0), 2).writers
  {
    TwoReadersAreOk({In}, 0);
    TwoReadersAreOk({}, 0);
    assert Cleared(TwoReaders({In}, 0), 1) == TwoReaders({}, 0);
    CheckedDeeds();
    ReadEffectAttends(TwoReaders({In}, 0), 1, Answer(True, [Queue(1, 5)] + ([Check(1)] + []), true, 0),
                      Rules(false, true, 0), 2);
  }

  lemma CheckedDeeds()
    ensures Ok(TwoReaders({}, 0), 2)
    ensures Owed(TwoReaders({}, 0), [Queue(1, 5)] + ([Check(1)] + []), Object(2, 1), Rules(false, true, 0), 2, {}) == {}
    ensures var u := Acts(TwoReaders({}, 0), [Queue(1, 5)] + ([Check(1)] + []), Object(2, 1), Rules(false, true, 0), 2);
            1 in u.writers && 2 in u.heap && u.heap[2].pending == 0
  {
    var c, u, rules, me := TwoReaders({}, 0), FirstWritten(), Rules(false, true, 0), Object(2, 1);
    QueuedDeed();
    ActsCons(c, Queue(1, 5), [Check(1)] + [], me, rules, 2);
    OwedCons(c, Queue(1, 5), [Check(1)] + [], me, rules, 2, {});
    CheckedDeed();
    ActsCons(u, Check(1), [], me, rules, 2);
    OwedCons(u, Check(1), [], me, rules, 2, {1});
  }

  lemma QueuedDeed()
    ensures var c, rules, me := TwoReaders({}, 0), Rules(false, true, 0), Object(2, 1);
            && Ok(c, 2) && Act(c, Queue(1, 5), me, rules, 2) == FirstWritten()
            && OwedAfter(c, Queue(1, 5), me, rules, 2, {}) == {1}
  {
    TwoReadersAreOk({}, 0);
  }

  lemma CheckedDeed()
    ensures var u, rules, me := FirstWritten(), Rules(false, true, 0), Object(2, 1);
            && Ok(u, 2) && OwedAfter(u, Check(1), me, rules, 2, {1}) == {}
            && var v := Act(u, Check(1), me, rules, 2);
               1 in v.writers && v.heap == u.heap
  {
    FirstWrittenIsOk();
    CheckWriteAttendsIff(FirstWritten(), 1, 2);
    CheckWriteKeepsOk(FirstWritten(), 1, 2);
  }

  lemma FirstWrittenIsOk()
    ensures Ok(FirstWritten(), 2) && WritersOk(FirstWritten()) && !Overflows(FirstWritten(), 1, 2)
  {
    assert READ_BITS * WRITE_BITS == {};
  }

  lemma TwoReadersAreOk(flags: set<Bit>, bytes: nat)
    ensures Ok(TwoReaders(flags, bytes), 2) && WritersOk(TwoReaders(flags, bytes))
    ensures bytes == 0 ==> NoLost(TwoReaders(flags, bytes))
  {
    assert READ_BITS * WRITE_BITS == {};
  }

  lemma ForgottenQueue()
    ensures Ok(TwoReaders({}, 0), 2)
    ensures Act(TwoReaders({}, 0), Queue(2, 5), Object(2, 1), Rules(false, true, 0), 2) == TwoReaders({}, 5)
  {
    TwoReadersAreOk({}, 0);
  }

  lemma ForgottenDeeds()
    ensures Ok(TwoReaders({}, 0), 2)
    ensures Acts(TwoReaders({}, 0), [Queue(2, 5)] + ([Remove(1)] + []), Object(2, 1), Rules(false, true, 0), 2)
         == Tables([PollFd(8, READ_BITS, {})], [2], [0, 2], [0, 0], map[2 := Conn(8, 5, 1)], 2)
  {
    var rules, me := Rules(false, true, 0), Object(2, 1);
    ForgottenQueue();
    ActsCons(TwoReaders({}, 0), Queue(2, 5), [Remove(1)] + [], me, rules, 2);
    TwoReadersAreOk({}, 5);
    ActsCons(TwoReaders({}, 5), Remove(1), [], me, rules, 2);
    ForgottenRemove();
  }

  lemma ForgottenRemove()
    ensures Drop(TwoReaders({}, 5), 1)
         == Tables([PollFd(8, READ_BITS, {})], [2], [0, 2], [0, 0], map[2 := Conn(8, 5, 1)], 2)
  {
    var w := TwoReaders({}, 5);
    assert FirstFd(w.fds, 7) == 0 && FirstSlot(w.readers, 1) == 0 && FirstSlot(w.writers, 1) == 2;
    var h := Drop(w, 1);
    assert h.socks == [2] && h.fds == [PollFd(8, READ_BITS, {})] && h.readers == [0, 2];
    assert h.heap == map[2 := Conn(8, 5, 1)];
  }

  // ----- Whom the guard hits -----

  /** The reaction to a failure removes the object that was served, if it still lives, and no
      other, exactly when the pointer guard tells whether it lives. It does not when the socket
      has moved to another entry, or when another object has come to lie in its entry at its
      address. */
  lemma ErrorHitsServedIff(t: Tables, i: nat, me: Object, a: Answer, max: nat)
    requires Ok(t, max) && (a.receipt.False? || (a.receipt.True? && !a.ok))
    ensures (forall x: Object :: Lives(t, x) ==> (Lives(Reaction(t, i, me.at, a), x) <==> x != me))
       <==> (Guard(t, i, me.at) <==> Lives(t, me))
  {
    var u := Reaction(t, i, me.at, a);
    if Guard(t, i, me.at) {
      DropKeepsOk(t, me.at, max);
      var there := ObjectAt(t, me.at);
      assert Lives(t, there) && !Lives(u, there);
    } else if Lives(t, me) {
      assert Lives(u, me);
    }
  }

  /** A readable event, said outright: the flags of the entry go down; the handler is called if
      there is a message, for the object that is there; then comes the reaction. */
  lemma ReadEffectComesTo(t: Tables, i: nat, a: Answer, rules: Rules, max: nat)
    requires Ok(t, max) && i < |t.fds|
    ensures var p, u := t.socks[i], ReadEffect(t, i, a, rules, max);
            var c := t.(fds := t.fds[i := PollFd(t.fds[i].fd, t.fds[i].events, {})]);
            && Ok(c, max) && p in t.heap
            && (a.receipt.True? ==> Reacted(Acts(c, a.deeds, Object(p, t.heap[p].id), rules, max), u, i, p, a))
            && (a.receipt.False? ==> Reacted(c, u, i, p, a))
            && (a.receipt.Interim? ==> u == c)
  {
    ClearedKeepsOk(t, i, max);
    ReactionIsReacted(Handled(t, i, a, rules, max), i, t.socks[i], a, max);
  }

  /** After success write interest goes to no object but the one that was served, unless the
      entry holds another object at its address, with output and not yet among the writers. */
  lemma InterestHitsServedIff(t: Tables, i: nat, me: Object, a: Answer, max: nat)
    requires Ok(t, max) && a.receipt.True? && !Failed(a) && 0 in t.writers
    ensures (forall x: Object :: Lives(t, x) && x != me ==>
               (x.at in Reaction(t, i, me.at, a).writers <==> x.at in t.writers))
       <==> !(Guard(t, i, me.at) && !Lives(t, me) && t.heap[me.at].pending > 0 && me.at !in t.writers)
  {
    var u := Reaction(t, i, me.at, a);
    if u != t {
      EnlistKeepsOk(t, i, me.at, max);
      FillKeepsSlots(t.writers, me.at, t.heap);
      var there := ObjectAt(t, me.at);
      assert Lives(t, there) && there.at in u.writers;
    }
  }

  /** The guard meets another object only if the handler has removed its own socket and the
      other object was created since. */
  lemma GuardMeetsNewcomers(t: Tables, i: nat, a: Answer, rules: Rules, max: nat)
    requires Ok(t, max) && i < |t.fds|
    ensures var h, me := Handled(t, i, a, rules, max), ObjectAt(t, t.socks[i]);
            Guard(h, i, me.at) && !Lives(h, me) ==>
              me.at in GoneInHandler(t, i, a, rules, max) && t.created <= h.heap[me.at].id
  {
    if a.receipt.True? {
      var me, c := ObjectAt(t, t.socks[i]), Cleared(t, i);
      ActsAge(c, a.deeds, me, rules, max);
      if me.at !in Removals(c, a.deeds, me, rules, max) {
        ActsKeepObject(c, a.deeds, me, rules, max, me);
      }
    }
  }

  /** A single reader at address 1, with room for one. */
  function OneReader(fd: int, flags: set<Bit>, id: nat): Tables {
    Tables([PollFd(fd, READ_BITS, flags)], [1], [1], [0], map[1 := Conn(fd, 0, id)], id + 1)
  }

  /** It happens: the handler of socket 1 removes it and takes on a new socket, for which `new`
      answers the same address. It comes to lie in the same entry, the handler fails, and the
      new connection is destroyed in place of the old. */
  lemma ReusedAddressIsHit()
    ensures var t := OneReader(7, {In}, 0);
            var a := Answer(True, [Remove(1)] + ([Create(1, 9)] + ([Listen(1)] + [])), false, 0);
            var rules := Rules(true, true, 0);
            && Ok(t, 1) && WritersOk(t) && NoLost(t)
            && Handled(t, 0, a, rules, 1) == OneReader(9, {}, 1)
            && ReadEffect(t, 0, a, rules, 1) == NoReader(2)
  {
    OneReaderIsOk(7, {In}, 0);
    assert Cleared(OneReader(7, {In}, 0), 0) == OneReader(7, {}, 0);
    ReusingDeeds();
    DropOnly(9, 1);
  }

  lemma OneReaderIsOk(fd: int, flags: set<Bit>, id: nat)
    requires fd >= 0
    ensures var t := OneReader(fd, flags, id); Ok(t, 1) && WritersOk(t) && NoLost(t)
  {
    assert READ_BITS * WRITE_BITS == {};
  }

  /** No reader, after so many objects. */
  function NoReader(created: nat): Tables {
    Tables([], [], [0], [0], map[], created)
  }

  lemma ReusingDeeds()
    ensures Ok(OneReader(7, {}, 0), 1)
    ensures Acts(OneReader(7, {}, 0), [Remove(1)] + ([Create(1, 9)] + ([Listen(1)] + [])),
                 Object(1, 0), Rules(true, true, 0), 1)
         == OneReader(9, {}, 1)
  {
    OneReaderIsOk(7, {}, 0);
    RemovesOwn();
    ActsCons(OneReader(7, {}, 0), Remove(1), [Create(1, 9)] + ([Listen(1)] + []),
             Object(1, 0), Rules(true, true, 0), 1);
    CreatesThere();
  }

  lemma RemovesOwn()
    ensures Ok(OneReader(7, {}, 0), 1)
    ensures Act(OneReader(7, {}, 0), Remove(1), Object(1, 0), Rules(true, true, 0), 1) == NoReader(1)
  {
    DropOnly(7, 0);
  }

  lemma CreatesThere()
    ensures Ok(NoReader(1), 1)
    ensures Acts(NoReader(1), [Create(1, 9)] + ([Listen(1)] + []), Object(1, 0), Rules(true, true, 0), 1)
         == OneReader(9, {}, 1)
  {
    var u, v, me, rules := NoReader(1), Created(), Object(1, 0), Rules(true, true, 0);
    assert Act(u, Create(1, 9), me, rules, 1) == v;
    ActsCons(u, Create(1, 9), [Listen(1)] + [], me, rules, 1);
    ListensThere();
    ActsCons(v, Listen(1), [], me, rules, 1);
  }

  function Created(): Tables {
    NoReader(2).(heap := map[1 := Conn(9, 0, 1)])
  }

  lemma ListensThere()
    ensures Ok(Created(), 1)
    ensures Act(Created(), Listen(1), Object(1, 0), Rules(true, true, 0), 1) == OneReader(9, {}, 1)
  {
    var v := Created();
    assert FirstFd(v.fds, 9) == 0 && FirstSlot(v.readers, 0) == 0;
  }

  lemma DropOnly(fd: int, id: nat)
    requires fd >= 0
    ensures Drop(OneReader(fd, {}, id), 1) == NoReader(id + 1)
  {
    var t := OneReader(fd, {}, id);
    assert FirstFd(t.fds, fd) == 0 && FirstSlot(t.readers, 1) == 0 && FirstSlot(t.writers, 1) == 1;
  }

  // ----- The listening socket -----

  /** A socket that handlers spare is lost in a read event exactly when it is the one served,
      the event fails, and it is still in its entry. */
  lemma ReadEffectTendsIff(t: Tables, i: nat, a: Answer, rules: Rules, max: nat, l: Ptr, c: Conn)
    requires Ok(t, max) && i < |t.fds| && rules.spared == l && Tended(t, l, c)
    ensures Tended(ReadEffect(t, i, a, rules, max), l, c)
       <==> !(t.socks[i] == l && Failed(a) && Guard(Handled(t, i, a, rules, max), i, l))
  {
    var p, h := t.socks[i], Handled(t, i, a, rules, max);
    assert Tended(Cleared(t, i), l, c);
    if a.receipt.True? {
      ActsTend(Cleared(t, i), a.deeds, ObjectAt(t, p), rules, max, l, c);
    }
    if Failed(a) && Guard(h, i, p) {
      DropKeepsOk(h, p, max);
    }
  }

  /** The object was deleted; once it is, it stays so, whoever is given its address. */
  predicate Deleted(t: Tables, x: Object) {
    x.id < t.created && !Lives(t, x)
  }

  lemma EffectAges(t: Tables, i: nat, kind: Kind, a: Answer, rules: Rules, max: nat)
    requires Ok(t, max) && i < |t.fds|
    ensures Aged(t, Effect(t, i, kind, a, rules, max))
  {
    if kind.Reading? && a.receipt.True? {
      ActsAge(Cleared(t, i), a.deeds, ObjectAt(t, t.socks[i]), rules, max);
    }
  }

  lemma WriteEffectTends(t: Tables, i: nat, a: Answer, max: nat, l: Ptr, c: Conn)
    requires Ok(t, max) && i < |t.fds| && Tended(t, l, c)
    ensures Tended(WriteEffect(t, i, a), l, c)
  {
    var p, h := t.socks[i], Sent(t, i, a);
    SentKeepsOk(t, i, a, max);
    if !Wrote(t.heap[p].pending, a) {
      DropKeepsOk(h, p, max);
    }
  }
}
