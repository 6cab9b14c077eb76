/** Whole runs of the send side: a ring and the network behind it as a state machine whose
    steps are the primitive effects of `WriteN` and `WriteFromBufferToNetwork`. */
module SendStream {
  import opened Bytes
  import opened Ring

  datatype State = State(data: seq<Byte>, start: nat, end: nat, sent: seq<Byte>) {
    predicate Valid() {
      InRange(|data|, start, end)
    }

    function Queue(): (q: seq<Byte>)
      requires Valid()
    {
      Contents(data, start, end)
    }

    /** Everything taken on so far, in order. */
    function Stream(): seq<Byte>
      requires Valid()
    {
      sent + Queue()
    }
  }

  /** `Enqueue` is `WriteNToBuffer` with what `realloc` leaves in the added bytes, `Drain` one
      successful `send` off the ring, `Direct` one successful `send` past an empty ring. */
  datatype Event = Enqueue(bytes: seq<Byte>, fill: seq<Byte>) | Drain(count: nat) | Direct(bytes: seq<Byte>)

  function Taken(e: Event): seq<Byte> {
    if e.Drain? then [] else e.bytes
  }

  predicate Enabled(s: State, e: Event)
    requires s.Valid()
  {
    match e
    case Enqueue(bytes, fill) =>
      && MoveInBounds(|s.data|, s.start, s.end, |bytes|)
      && |fill| == GrowBy(|s.data|, s.start, s.end, |bytes|)
    case Drain(count) => s.start + count <= (if s.end < s.start then |s.data| else s.end)
    case Direct(_) => s.start == s.end
  }

  predicate Safe(s: State, e: Event)
    requires s.Valid()
  {
    e.Enqueue? ==> GrowthSafe(|s.data|, s.start, s.end, |e.bytes|)
  }

  /** One copy to the end index. */
  function Put(s: State, bytes: seq<Byte>): (r: State)
    requires s.Valid() && HasRun(|s.data|, s.start, s.end, |bytes|)
    ensures r.Valid() && r.Stream() == s.Stream() + bytes && r.start == s.start && r.sent == s.sent
    ensures |r.data| == |s.data| && r.end == Advance(|s.data|, s.end, |bytes|)
  {
    AppendRun(s.data, s.start, s.end, bytes);
    s.(data := Splice(s.data, s.end, bytes), end := Advance(|s.data|, s.end, |bytes|))
  }

  /** An empty ring starts over at its origin. */
  function Reset(s: State): (r: State)
    requires s.Valid()
    ensures r.Valid() && r.Stream() == s.Stream() && r.sent == s.sent && r.data == s.data
    ensures Count(|r.data|, r.start, r.end) == Count(|s.data|, s.start, s.end)
    ensures r.start == r.end ==> r.start == 0
  {
    if s.start == s.end then s.(start := 0, end := 0) else s
  }

  /** Appends in one copy or two once there is room. */
  function PutAll(s: State, bytes: seq<Byte>): (r: State)
    requires s.Valid() && Count(|s.data|, s.start, s.end) + |bytes| < |s.data|
    requires s.start == s.end ==> s.start == 0
    ensures r.Valid() && r.Stream() == s.Stream() + bytes && r.sent == s.sent
  {
    var right := |s.data| - s.end;
    if s.end < s.start || |bytes| <= right then Put(s, bytes)
    else
      assert bytes[..right] + bytes[right..] == bytes;
      Put(Put(s, bytes[..right]), bytes[right..])
  }

  function Append(s: State, bytes: seq<Byte>): (r: State)
    requires s.Valid() && Count(|s.data|, s.start, s.end) + |bytes| < |s.data|
    ensures r.Valid() && r.Stream() == s.Stream() + bytes && r.sent == s.sent
  {
    PutAll(Reset(s), bytes)
  }

  function Regrow(s: State, fill: seq<Byte>): (r: State)
    requires s.Valid() && (s.end < s.start ==> s.start + |fill| <= |s.data|)
    ensures r.Valid() && r.sent == s.sent && r.Queue() == RegrownContents(s.data, s.start, s.end, fill)
    ensures |r.data| == |s.data| + |fill|
  {
    s.(data := Regrown(s.data, s.start, s.end, fill), start := RegrownStart(s.start, s.end, |fill|))
  }

  lemma MoveFront(sent: seq<Byte>, q: seq<Byte>, k: nat)
    requires k <= |q|
    ensures (sent + q[..k]) + q[k..] == sent + q
  {
    assert q == q[..k] + q[k..];
  }

  lemma AdvanceDrops(s: State, count: nat)
    requires s.Valid() && s.start + count <= (if s.end < s.start then |s.data| else s.end)
    ensures count <= |s.Queue()| && InRange(|s.data|, Advance(|s.data|, s.start, count), s.end)
    ensures Contents(s.data, Advance(|s.data|, s.start, count), s.end) == s.Queue()[count..]
  {
    DropFront(s.data, s.start, s.end, count);
  }

  /** Moves bytes from the front of the ring to the end of what was sent. */
  function Send(s: State, count: nat): (r: State)
    requires s.Valid() && s.start + count <= (if s.end < s.start then |s.data| else s.end)
    ensures r.Valid() && r.Stream() == s.Stream()
  {
    AdvanceDrops(s, count);
    MoveFront(s.sent, s.Queue(), count);
    s.(start := Advance(|s.data|, s.start, count), sent := s.sent + s.Queue()[..count])
  }

  function Step(s: State, e: Event): (r: State)
    requires s.Valid() && Enabled(s, e)
    ensures r.Valid()
  {
    match e
    case Enqueue(bytes, fill) => Append(Regrow(s, fill), bytes)
    case Drain(count) => Send(s, count)
    case Direct(bytes) => s.(sent := s.sent + bytes)
  }

  /** A step takes its bytes on behind all earlier ones when its growth is safe. */
  lemma StepConserves(s: State, e: Event)
    requires s.Valid() && Enabled(s, e) && Safe(s, e)
    ensures Step(s, e).Stream() == s.Stream() + Taken(e)
  {
    match e
    case Enqueue(bytes, fill) =>
      SafeGrowthKeepsQueue(s.data, s.start, s.end, fill);
    case Drain(count) =>
    case Direct(bytes) =>
  }

  /** An unsafe growth does not: some leftover of `realloc` shows up in the stream. Together
      with `StepConserves` this says exactly when queueing is correct. */
  lemma UnsafeGrowthBreaks(s: State, bytes: seq<Byte>)
    requires s.Valid() && MoveInBounds(|s.data|, s.start, s.end, |bytes|)
    requires !GrowthSafe(|s.data|, s.start, s.end, |bytes|)
    ensures exists fill :: Enabled(s, Enqueue(bytes, fill))
                           && Step(s, Enqueue(bytes, fill)).Stream() != s.Stream() + bytes
  {
    GrowthKeepsQueueIff(s.data, s.start, s.end, |bytes|);
    var fill :| |fill| == GrowBy(|s.data|, s.start, s.end, |bytes|)
                && RegrownContents(s.data, s.start, s.end, fill) != s.Queue();
    var e := Enqueue(bytes, fill);
    var q := RegrownContents(s.data, s.start, s.end, fill);
    assert Enabled(s, e);
    assert Step(s, e).Stream() == (s.sent + q) + bytes;
    assert ((s.sent + q) + bytes)[|s.sent|..|s.sent| + |q|] == q;
    assert (s.Stream() + bytes)[|s.sent|..|s.sent| + |q|] == s.Queue();
  }

  // ----- Runs -----

  predicate IsRun(s: State, events: seq<Event>)
    requires s.Valid()
    decreases |events|
  {
    events == [] || (Enabled(s, events[0]) && IsRun(Step(s, events[0]), events[1..]))
  }

  predicate AllSafe(s: State, events: seq<Event>)
    requires s.Valid() && IsRun(s, events)
    decreases |events|
  {
    events == [] || (Safe(s, events[0]) && AllSafe(Step(s, events[0]), events[1..]))
  }

  function Final(s: State, events: seq<Event>): (r: State)
    requires s.Valid() && IsRun(s, events)
    ensures r.Valid()
    decreases |events|
  {
    if events == [] then s else Final(Step(s, events[0]), events[1..])
  }

  function AllTaken(events: seq<Event>): seq<Byte> {
    if events == [] then [] else Taken(events[0]) + AllTaken(events[1..])
  }

  /** Over any run of writes and partial sends whose growths are safe, what was sent followed
      by what is queued is the concatenation of everything written. */
  lemma {:induction false} RunConserves(s: State, events: seq<Event>)
    requires s.Valid() && IsRun(s, events) && AllSafe(s, events)
    ensures Final(s, events).Stream() == s.Stream() + AllTaken(events)
    decreases |events|
  {
    if events != [] {
      StepConserves(s, events[0]);
      RunConserves(Step(s, events[0]), events[1..]);
    }
  }

  /** The events lead from `s` to `t` and take `bytes` on. */
  predicate Reaches(s: State, events: seq<Event>, t: State, bytes: seq<Byte>) {
    s.Valid() && IsRun(s, events) && Final(s, events) == t && AllTaken(events) == bytes
  }

  predicate ReachesSafely(s: State, events: seq<Event>, t: State, bytes: seq<Byte>) {
    Reaches(s, events, t, bytes) && AllSafe(s, events)
  }

  lemma RunCons(s: State, e: Event, rest: seq<Event>)
    requires s.Valid() && Enabled(s, e) && IsRun(Step(s, e), rest)
    ensures IsRun(s, [e] + rest) && Final(s, [e] + rest) == Final(Step(s, e), rest)
    ensures AllTaken([e] + rest) == Taken(e) + AllTaken(rest)
  {
    assert ([e] + rest)[1..] == rest;
  }

  lemma SafeCons(s: State, e: Event, rest: seq<Event>)
    requires s.Valid() && Enabled(s, e) && IsRun(Step(s, e), rest)
    ensures IsRun(s, [e] + rest) && (AllSafe(s, [e] + rest) <==> Safe(s, e) && AllSafe(Step(s, e), rest))
  {
    assert ([e] + rest)[1..] == rest;
  }

  lemma SplitFirst<T>(a: seq<T>, b: seq<T>)
    requires a != []
    ensures a + b == [a[0]] + (a[1..] + b)
  {
  }

  lemma {:induction false} FinalConcat(s: State, a: seq<Event>, b: seq<Event>)
    requires s.Valid() && IsRun(s, a) && IsRun(Final(s, a), b)
    ensures IsRun(s, a + b) && Final(s, a + b) == Final(Final(s, a), b)
    ensures AllSafe(s, a) && AllSafe(Final(s, a), b) ==> AllSafe(s, a + b)
    decreases |a|
  {
    if a == [] {
      assert a + b == b;
    } else {
      FinalConcat(Step(s, a[0]), a[1..], b);
      SplitFirst(a, b);
      RunCons(s, a[0], a[1..] + b);
      SafeCons(s, a[0], a[1..] + b);
    }
  }

  lemma {:induction false} TakenConcat(a: seq<Event>, b: seq<Event>)
    ensures AllTaken(a + b) == AllTaken(a) + AllTaken(b)
  {
    if a == [] {
      assert a + b == b;
    } else {
      assert (a + b)[1..] == a[1..] + b;
      TakenConcat(a[1..], b);
    }
  }

  /** Runs compose. */
  lemma RunConcat(s: State, a: seq<Event>, t: State, x: seq<Byte>, b: seq<Event>, u: State, y: seq<Byte>)
    requires Reaches(s, a, t, x) && Reaches(t, b, u, y)
    ensures Reaches(s, a + b, u, x + y)
    ensures AllSafe(s, a) && AllSafe(t, b) ==> AllSafe(s, a + b)
  {
    FinalConcat(s, a, b);
    TakenConcat(a, b);
  }

  lemma RunThen(s: State, a: seq<Event>, t: State, x: seq<Byte>, e: Event)
    requires Reaches(s, a, t, x) && Enabled(t, e)
    ensures Reaches(s, a + [e], Step(t, e), x + Taken(e))
    ensures AllSafe(s, a) && Safe(t, e) ==> AllSafe(s, a + [e])
  {
    RunCons(t, e, []);
    SafeCons(t, e, []);
    assert [e] + [] == [e] && Taken(e) + [] == Taken(e);
    RunConcat(s, a, t, x, [e], Step(t, e), Taken(e));
  }

  /** The next bytes of a buffer go directly to the network. */
  lemma RunThenDirect(s: State, a: seq<Event>, t: State, buf: seq<Byte>, i: nat, count: nat)
    requires i + count <= |buf| && ReachesSafely(s, a, t, buf[..i])
    requires Enabled(t, Direct(buf[i..][..count]))
    ensures var e := Direct(buf[i..i + count]);
            Enabled(t, e) && ReachesSafely(s, a + [e], Step(t, e), buf[..i + count])
  {
    assert buf[i..][..count] == buf[i..i + count];
    assert buf[..i] + buf[i..i + count] == buf[..i + count];
    RunThen(s, a, t, buf[..i], Direct(buf[i..i + count]));
  }

  /** Queueing on an empty ring is safe. */
  lemma RunThenQueue(s: State, a: seq<Event>, t: State, x: seq<Byte>, bytes: seq<Byte>, fill: seq<Byte>)
    requires ReachesSafely(s, a, t, x) && t.start == t.end && Enabled(t, Enqueue(bytes, fill))
    ensures ReachesSafely(s, a + [Enqueue(bytes, fill)], Step(t, Enqueue(bytes, fill)), x + bytes)
  {
    RunThen(s, a, t, x, Enqueue(bytes, fill));
  }

  /** What was sent stays sent. */
  lemma {:induction false} SentGrows(s: State, events: seq<Event>)
    requires s.Valid() && IsRun(s, events)
    ensures s.sent <= Final(s, events).sent
    decreases |events|
  { if events != [] { SentGrows(Step(s, events[0]), events[1..]); } }

  /** The first run of the queue is sent when the start index has moved to its end. */
  lemma FirstRunIsSent(s: State, a: seq<Event>, t: State)
    requires ReachesSafely(s, a, t, []) && |t.data| == |s.data| && t.end == s.end
    requires t.start == if s.end < s.start then 0 else s.end
    ensures |t.sent| == |s.sent| + if s.end < s.start then |s.data| - s.start else s.end - s.start
  {
    RunConserves(s, a);
    assert |t.Stream()| == |s.Stream()|;
  }

  /** A flush followed by what a write does after it. */
  lemma FlushThen(s: State, a: seq<Event>, t: State, b: seq<Event>, u: State, y: seq<Byte>)
    requires ReachesSafely(s, a, t, []) && Reaches(t, b, u, y)
    ensures Reaches(s, a + b, u, y)
    ensures AllSafe(t, b) ==> AllSafe(s, a + b) && u.Stream() == s.Stream() + y
  {
    RunConcat(s, a, t, [], b, u, y);
    assert [] + y == y;
    if AllSafe(t, b) {
      RunConserves(s, a + b);
    }
  }

  /** A run that a slow network provokes on a four-byte ring: it takes two of three queued
      bytes, then refuses while two and one more are written. The last write grows the
      wrapped ring by one but moves one byte of a tail of two, and byte 4 is lost. */
  lemma ReachableLoss()
    ensures var s := State([0, 0, 0, 0], 0, 0, []);
            var events := [Enqueue([1, 2, 3], []), Drain(2), Enqueue([4, 5], []), Enqueue([6], [0])];
            && IsRun(s, events)
            && AllTaken(events) == [1, 2, 3, 4, 5, 6]
            && Final(s, events).Stream() == [1, 2, 3, 0, 5, 6]
  {
    var s0, s1 := State([0, 0, 0, 0], 0, 0, []), State([1, 2, 3, 0], 0, 3, []);
    var e1, e2, rest := Enqueue([1, 2, 3], []), Drain(2), [Enqueue([4, 5], []), Enqueue([6], [0])];
    LossFill();
    LossEnds();
    RunCons(s1, e2, rest);
    RunCons(s0, e1, [e2] + rest);
    assert [e1] + ([e2] + rest) == [e1, e2, Enqueue([4, 5], []), Enqueue([6], [0])];
    assert [1, 2, 3] + ([] + [4, 5, 6]) == [1, 2, 3, 4, 5, 6];
  }

  lemma LossEnds()
    ensures var s, events := State([1, 2, 3, 0], 2, 3, [1, 2]), [Enqueue([4, 5], []), Enqueue([6], [0])];
            && IsRun(s, events) && AllTaken(events) == [4, 5, 6]
            && Final(s, events) == State([5, 6, 3, 3, 0], 3, 2, [1, 2])
            && Final(s, events).Stream() == [1, 2, 3, 0, 5, 6]
  {
    var s2, s3 := State([1, 2, 3, 0], 2, 3, [1, 2]), State([5, 2, 3, 4], 2, 1, [1, 2]);
    var e3, e4 := Enqueue([4, 5], []), Enqueue([6], [0]);
    LossWrap();
    LossGrow();
    RunCons(s3, e4, []);
    RunCons(s2, e3, [e4] + []);
    assert [e3] + ([e4] + []) == [e3, e4];
    assert [4, 5] + ([6] + []) == [4, 5, 6];
  }

  /** Before the last of these writes any write of three bytes or more, an integer say, would
      move more than the tail, out of the block, and any shorter one would not. */
  lemma ReachableOverrun(n: nat)
    ensures var s := State([0, 0, 0, 0], 0, 0, []);
            var events := [Enqueue([1, 2, 3], []), Drain(2), Enqueue([4, 5], [])];
            && IsRun(s, events) && AllSafe(s, events)
            && var t := Final(s, events);
               t == State([5, 2, 3, 4], 2, 1, [1, 2]) && (MoveInBounds(|t.data|, t.start, t.end, n) <==> n < 3)
  {
    var s0, s1, s2 := State([0, 0, 0, 0], 0, 0, []), State([1, 2, 3, 0], 0, 3, []), State([1, 2, 3, 0], 2, 3, [1, 2]);
    var s3 := State([5, 2, 3, 4], 2, 1, [1, 2]);
    var e1, e2, e3 := Enqueue([1, 2, 3], []), Drain(2), Enqueue([4, 5], []);
    LossFill();
    LossWrap();
    GrowthConditions(4, 2, 1, n);
    RunCons(s2, e3, []);
    SafeCons(s2, e3, []);
    RunCons(s1, e2, [e3]);
    SafeCons(s1, e2, [e3]);
    RunCons(s0, e1, [e2, e3]);
    SafeCons(s0, e1, [e2, e3]);
    assert [e3] + [] == [e3] && [e2] + [e3] == [e2, e3] && [e1] + [e2, e3] == [e1, e2, e3];
  }

  lemma LossFill()
    ensures var s0, s1 := State([0, 0, 0, 0], 0, 0, []), State([1, 2, 3, 0], 0, 3, []);
            && Enabled(s0, Enqueue([1, 2, 3], [])) && Step(s0, Enqueue([1, 2, 3], [])) == s1
            && Enabled(s1, Drain(2)) && Step(s1, Drain(2)) == State([1, 2, 3, 0], 2, 3, [1, 2])
  {
    assert [0, 0, 0, 0] + [] == [0, 0, 0, 0];
    assert Splice([0, 0, 0, 0], 0, [1, 2, 3]) == [1, 2, 3, 0];
    assert [1, 2, 3, 0][0..3] == [1, 2, 3] && [1, 2, 3][..2] == [1, 2];
  }

  lemma LossWrap()
    ensures var s2, e := State([1, 2, 3, 0], 2, 3, [1, 2]), Enqueue([4, 5], []);
            Enabled(s2, e) && Step(s2, e) == State([5, 2, 3, 4], 2, 1, [1, 2])
  {
    var s2 := State([1, 2, 3, 0], 2, 3, [1, 2]);
    assert Regrow(s2, []) == s2 && Reset(s2) == s2;
    assert [4, 5][..1] == [4] && [4, 5][1..] == [5];
    assert Splice([1, 2, 3, 0], 3, [4]) == [1, 2, 3, 4];
    assert Put(s2, [4]) == State([1, 2, 3, 4], 2, 0, [1, 2]);
    assert Splice([1, 2, 3, 4], 0, [5]) == [5, 2, 3, 4];
  }

  lemma LossGrow()
    ensures var s3, e := State([5, 2, 3, 4], 2, 1, [1, 2]), Enqueue([6], [0]);
            Enabled(s3, e) && Step(s3, e) == State([5, 6, 3, 3, 0], 3, 2, [1, 2])
  {
    var s3 := State([5, 2, 3, 4], 2, 1, [1, 2]);
    assert [5, 2, 3, 4] + [0] == [5, 2, 3, 4, 0] && [5, 2, 3, 4, 0][2..3] == [3];
    assert Splice([5, 2, 3, 4, 0], 3, [3]) == [5, 2, 3, 3, 0];
    assert Regrow(s3, [0]) == State([5, 2, 3, 3, 0], 3, 1, [1, 2]);
    assert Splice([5, 2, 3, 3, 0], 1, [6]) == [5, 6, 3, 3, 0];
  }
}
