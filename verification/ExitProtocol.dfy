/** The handshake between the owner of a thread object and the threads that run it: a binary
    semaphore, the thread handle and the exit flag, interleaved statement by statement. Every
    call has the guard of the source and no other, so that an object can be set going while it
    is still running; `Minds` is the discipline under which nothing goes wrong. */
module ExitProtocol {
  import opened ThreadLifeCycle

  /** Where a started thread stands: at the head of its loop, before one of the statements of
      `ThreadProc`, or past the loop and about to call `NotifyExit`. */
  datatype WorkerPc = Head | AtInit | AtCheck | AtRun | AtExit | AtDone | AtNotify

  /** The three ways to set a thread object going: a thread of its own (`CreateThread`), the
      owner's thread (`RunThreadHere`), or the thread of a complex, which calls `ThreadProc` for
      all objects on its list (`PrepareComplexing` and `AddCiThread`). */
  datatype Mode = Create | Here | Complex

  /** Where the owner stands. */
  datatype OwnerPc =
    | Idle
    | SettingReady(mode: Mode)  // PrepareRunning, the exit flag is cleared
    | Acquiring(mode: Mode)     // PrepareRunning, about to wait for the semaphore
    | Acquired(mode: Mode)      // PrepareRunning returned
    | Failing                   // pthread_create failed
    | Storing                   // the thread runs, its handle is not yet stored
    | RunningHere               // the owner's own thread runs the loop
    | Waiting                   // WaitUntilExit, about to wait for the semaphore
    | Clearing                  // WaitUntilExit, past the wait
    | Reposting                 // WaitUntilExit, the handle is cleared

  datatype State = State(
    sem: nat, handle: bool, exit: bool, state: ThreadState,
    owner: OwnerPc, workers: map<nat, WorkerPc>,
    listed: set<nat>,             // those workers that are complexes with the object on their list
    owed: int,                    // `PrepareComplexing` less `EndComplexing`
    run: nat,                     // how many workers were started
    calls: seq<Call>,             // the hooks called since the latest start
    logs: map<nat, seq<Call>>)    // the hooks called until each worker left the object

  const INITIAL := State(1, false, true, Ready, Idle, map[], {}, 0, 0, [], map[])

  /** `Unlist` is `DeleteCiThread`, which waits until the complex is between two rounds;
      `SkipWait` is `WaitUntilExit` on an object without a handle, which returns at once. */
  datatype Action =
    | EndThread
    | Call(mode: Mode) | SetReady | Acquire | Spawn | SpawnFails | PostAfterFailure | StoreHandle | ReturnFromHere
    | EndComplexing | Unlist(r: nat)
    | CallWait | PassWait | ClearHandle | Repost | SkipWait
    | Look(r: nat) | DoInit(r: nat, ok: bool) | Check(r: nat) | DoRun(r: nat, ok: bool)
    | DoExit(r: nat) | Finish(r: nat) | Notify(r: nat)

  predicate OfWorker(a: Action) {
    a.Look? || a.DoInit? || a.Check? || a.DoRun? || a.DoExit? || a.Finish? || a.Notify?
  }

  // ----- Steps -----

  predicate At(s: State, r: nat, pc: WorkerPc) {
    r in s.workers && s.workers[r] == pc
  }

  /** On an object that is done a complex does nothing. */
  predicate Resting(s: State, r: nat) {
    r in s.listed && At(s, r, Head) && IsThreadDone(s.state)
  }

  predicate Can(s: State, a: Action) {
    match a
    case EndThread => true
    case Call(mode) => s.owner == Idle && (mode != Complex ==> !s.handle)
    case EndComplexing => s.owner == Idle
    case Unlist(r) => s.owner == Idle && r in s.listed && At(s, r, Head)
    case SetReady => s.owner.SettingReady?
    case Acquire => s.owner.Acquiring? && s.sem > 0
    case Spawn => s.owner.Acquired?
    case SpawnFails => s.owner == Acquired(Create)
    case PostAfterFailure => s.owner == Failing
    case StoreHandle => s.owner == Storing
    case ReturnFromHere => s.owner == RunningHere && s.run !in s.workers
    case CallWait => s.owner == Idle && s.handle
    case SkipWait => s.owner == Idle && !s.handle
    case PassWait => s.owner == Waiting && s.sem > 0
    case ClearHandle => s.owner == Clearing
    case Repost => s.owner == Reposting
    case Look(r) => At(s, r, Head) && !Resting(s, r)
    case DoInit(r, _) => At(s, r, AtInit)
    case Check(r) => At(s, r, AtCheck)
    case DoRun(r, _) => At(s, r, AtRun)
    case DoExit(r) => At(s, r, AtExit)
    case Finish(r) => At(s, r, AtDone)
    case Notify(r) => At(s, r, AtNotify)
  }

  function OwnerDo(s: State, a: Action): State
    requires Can(s, a) && !OfWorker(a)
  {
    match a
    case EndThread => s.(exit := true)
    case Call(mode) => s.(exit := false, owner := SettingReady(mode))
    case SetReady => s.(state := Ready, owner := Acquiring(s.owner.mode))
    case Acquire => s.(sem := s.sem - 1, owner := Acquired(s.owner.mode))
    case Spawn =>
      var t := s.(run := s.run + 1, workers := s.workers[s.run + 1 := Head], calls := []);
      (match s.owner.mode
       case Create => t.(owner := Storing)
       case Here => t.(owner := RunningHere)
       case Complex => t.(owner := Idle, listed := s.listed + {s.run + 1}, owed := s.owed + 1))
    case EndComplexing => s.(sem := s.sem + 1, owed := s.owed - 1)
    case Unlist(r) => s.(workers := s.workers - {r}, listed := s.listed - {r}, logs := s.logs[r := s.calls])
    case SpawnFails => s.(exit := true, owner := Failing)
    case PostAfterFailure => s.(handle := false, sem := s.sem + 1, owner := Idle)
    case StoreHandle => s.(handle := true, owner := Idle)
    case ReturnFromHere => s.(owner := Idle)
    case CallWait => s.(owner := Waiting)
    case SkipWait => s
    case PassWait => s.(sem := s.sem - 1, owner := Clearing)
    case ClearHandle => s.(handle := false, owner := Reposting)
    case Repost => s.(sem := s.sem + 1, owner := Idle)
  }

  /** The case of `ThreadProc` that a state selects, or the way out of the loop. */
  function Dispatch(t: ThreadState): WorkerPc {
    match t
    case Ready => AtInit
    case DoneInitInstance => AtCheck
    case DoneExitInstance => AtDone
    case DoneExitInstanceError => AtDone
    case Done => AtNotify
    case DoneError => AtNotify
    case _ => AtExit
  }

  /** The point of the loop at which a thread takes the action. */
  function Before(a: Action): WorkerPc
    requires OfWorker(a)
  {
    match a
    case Look(_) => Head
    case DoInit(_, _) => AtInit
    case Check(_) => AtCheck
    case DoRun(_, _) => AtRun
    case DoExit(_) => AtExit
    case Finish(_) => AtDone
    case Notify(_) => AtNotify
  }

  /** Where the thread goes, and what becomes of the state and the log. */
  function Micro(t: Thread, a: Action): (WorkerPc, Thread)
    requires OfWorker(a) && !a.Notify?
  {
    match a
    case Look(_) => (Dispatch(t.state), t)
    case DoInit(_, ok) =>
      (if ok then AtCheck else Head,
       t.(calls := t.calls + [InitInstance(ok)], state := if ok then DoneInitInstance else Error))
    case Check(_) => if t.exit then (AtExit, t.(state := DoneRun)) else (AtRun, t)
    case DoRun(_, ok) => (Head, t.(calls := t.calls + [Run(ok)], state := if ok then t.state else Error))
    case DoExit(_) =>
      (AtDone, t.(calls := t.calls + [ExitInstance],
                  state := if t.state == DoneRun then DoneExitInstance else DoneExitInstanceError))
    case Finish(_) => (Head, t.(state := if t.state == DoneExitInstance then Done else DoneError))
  }

  function View(s: State): Thread {
    Thread(s.state, s.exit, s.calls)
  }

  function WorkerDo(s: State, a: Action): State
    requires Can(s, a) && OfWorker(a)
  {
    if a.Notify? then
      s.(sem := s.sem + 1, workers := s.workers - {a.r}, logs := s.logs[a.r := s.calls])
    else
      var (pc, t) := Micro(View(s), a);
      s.(state := t.state, calls := t.calls, workers := s.workers[a.r := pc])
  }

  function Do(s: State, a: Action): State
    requires Can(s, a)
  {
    if OfWorker(a) then WorkerDo(s, a) else OwnerDo(s, a)
  }

  // ----- The invariant -----

  function OwnerToken(pc: OwnerPc): nat {
    if pc.Acquired? || pc.Failing? || pc.Clearing? || pc.Reposting? then 1 else 0
  }

  /** A worker that may still call hooks. */
  predicate Live(s: State, r: nat) {
    r in s.workers && !Resting(s, r)
  }

  predicate NobodyLives(s: State) {
    forall r <- s.workers :: !Live(s, r)
  }

  /** Every worker is past its loop. */
  predicate Leaving(s: State) {
    forall r <- s.workers :: s.workers[r] == AtNotify
  }

  /** The discipline: no start while a worker is on the object, unless it is past its loop; no
      `EndComplexing` but for a `PrepareComplexing`; and neither `EndComplexing` nor
      `DeleteCiThread` before the object is done. */
  predicate Minds(s: State, a: Action) {
    match a
    case Call(_) => Leaving(s)
    case EndComplexing => s.owed > 0 && NobodyLives(s)
    case Unlist(r) => !Live(s, r)
    case _ => true
  }

  /** The log so far of a thread at a given point. */
  predicate LogAt(pc: WorkerPc, t: Thread) {
    var n := |t.calls|;
    var running := 1 <= n && t.calls == [InitInstance(true)] + GoodRuns(n - 1);
    match pc
    case Head => LogFits(t)
    case AtInit => t.state == Ready && t.calls == []
    case AtCheck => t.state == DoneInitInstance && running
    case AtRun => t.state == DoneInitInstance && running
    case AtExit => (t.state == DoneRun && t.exit && running) || (t.state == Error && LogFits(t))
    case AtDone => (t.state == DoneExitInstance && LogFits(t.(state := Done)))
                   || (t.state == DoneExitInstanceError && LogFits(t.(state := DoneError)))
    case AtNotify => WholeLog(t.calls)
  }

  /** A log from `InitInstance` to `ExitInstance`. */
  predicate WholeLog(calls: seq<Call>) {
    LogFits(Thread(Done, true, calls)) || LogFits(Thread(DoneError, true, calls))
  }

  /** A log that may still become whole, or is. */
  predicate ProperLog(calls: seq<Call>) {
    || LogFits(Thread(Ready, true, calls)) || LogFits(Thread(DoneInitInstance, true, calls))
    || LogFits(Thread(Error, true, calls)) || WholeLog(calls)
  }

  /** The owner is setting the object going. */
  predicate Starting(pc: OwnerPc) {
    pc.SettingReady? || pc.Acquiring? || pc.Acquired? || pc.Failing?
  }

  /** The owner waits only for a thread with a handle, and has cleared the handle before it returns;
      and a thread that could not be created is marked as having to exit. */
  predicate HandleInv(s: State) {
    && (s.owner.Waiting? || s.owner.Clearing? ==> s.handle)
    && (s.owner.Reposting? ==> !s.handle)
    && (s.owner.Failing? ==> s.exit)
  }

  /** At most one worker, the latest; and one token in all, held by the semaphore, the owner, the
      worker, or the owner on behalf of a complex. */
  predicate TokenInv(s: State) {
    && HandleInv(s)
    && (forall r <- s.workers :: r == s.run >= 1)
    && (forall r <- s.listed :: r in s.workers && s.workers[r] != AtNotify)
    && 0 <= s.owed
    && s.sem + OwnerToken(s.owner) + s.owed + (if s.workers != map[] && s.listed == {} then 1 else 0) == 1
    && (s.listed != {} && s.owed == 0 ==> NobodyLives(s))
    && (Starting(s.owner) ==> Leaving(s))
    && (s.owner.Acquiring? || s.owner.Acquired? ==> s.state == Ready)
  }

  /** The log of the worker fits its place in the loop. */
  predicate WorkerInv(s: State) {
    forall r <- s.workers :: LogAt(s.workers[r], View(s))
  }

  /** Every worker is on the object or has a whole log. */
  predicate LogInv(s: State) {
    forall r: nat :: 1 <= r <= s.run ==> r in s.workers || (r in s.logs && WholeLog(s.logs[r]))
  }

  predicate Inv(s: State) {
    TokenInv(s) && WorkerInv(s) && LogInv(s)
  }

  lemma NobodyAtSpawn(s: State)
    requires TokenInv(s) && Can(s, Spawn)
    ensures s.workers == map[] && s.listed == {} && s.sem == 0 && s.owed == 0
  {
    assert s.listed == {};
    assert s.workers == map[];
  }

  lemma SpawnKeepsToken(s: State)
    requires TokenInv(s) && Can(s, Spawn)
    ensures OwnerDo(s, Spawn).workers == map[s.run + 1 := Head] && TokenInv(OwnerDo(s, Spawn))
  {
    NobodyAtSpawn(s);
    var t := OwnerDo(s, Spawn);
    assert t.workers == map[t.run := Head] && t.run in t.workers;
    assert s.owner.mode == Complex ==> t.run in t.listed;
  }

  lemma UnlistKeepsToken(s: State, r: nat)
    requires TokenInv(s) && Can(s, Unlist(r)) && Minds(s, Unlist(r))
    ensures TokenInv(OwnerDo(s, Unlist(r)))
  {
    var t := OwnerDo(s, Unlist(r));
    assert t.workers == map[] && t.listed == {};
  }

  lemma OwnerKeepsToken(s: State, a: Action)
    requires TokenInv(s) && Can(s, a) && Minds(s, a) && !OfWorker(a)
    ensures TokenInv(OwnerDo(s, a))
  {
    if a.Unlist? {
      UnlistKeepsToken(s, a.r);
    } else if a.Spawn? {
      SpawnKeepsToken(s);
    } else {
      assert OwnerDo(s, a).workers == s.workers && OwnerDo(s, a).listed == s.listed;
    }
  }

  /** On the workers that are on the object the owner's steps have no effect but to raise the exit
      flag. */
  lemma OwnerLeavesWorkers(s: State, a: Action)
    requires TokenInv(s) && Can(s, a) && Minds(s, a) && !OfWorker(a) && !a.Spawn?
    ensures var t := OwnerDo(s, a);
            && t.run == s.run && t.calls == s.calls
            && (forall r <- t.workers :: r in s.workers && t.workers[r] == s.workers[r])
            && (!Leaving(s) ==> t.state == s.state && t.exit == (s.exit || a == EndThread))
            && (forall r <- s.workers :: Live(s, r) ==> r in t.workers)
  {
    if a.Unlist? {
      assert !Live(s, a.r);
    }
  }

  lemma OwnerKeepsWorkerLog(s: State, a: Action)
    requires TokenInv(s) && WorkerInv(s) && Can(s, a) && Minds(s, a) && !OfWorker(a)
    ensures WorkerInv(OwnerDo(s, a))
  {
    var t := OwnerDo(s, a);
    if a.Spawn? {
      SpawnKeepsToken(s);
    } else {
      OwnerLeavesWorkers(s, a);
      forall r <- t.workers
        ensures LogAt(t.workers[r], View(t))
      {
        assert LogAt(s.workers[r], View(s));
        if !Leaving(s) {
          ExitRaised(s.workers[r], View(s));
        }
      }
    }
  }

  lemma ExitRaised(pc: WorkerPc, t: Thread)
    requires LogAt(pc, t)
    ensures LogAt(pc, t.(exit := true))
  {
  }

  lemma DoneIsWhole(t: Thread)
    requires IsThreadDone(t.state) && LogFits(t)
    ensures WholeLog(t.calls)
  {
  }

  lemma OwnerKeepsLogs(s: State, a: Action)
    requires Inv(s) && Can(s, a) && Minds(s, a) && !OfWorker(a)
    ensures LogInv(OwnerDo(s, a))
  {
    var t := OwnerDo(s, a);
    if a.Unlist? {
      assert LogAt(s.workers[a.r], View(s));
      DoneIsWhole(View(s));
    } else if !a.Spawn? {
      assert t.workers == s.workers && t.logs == s.logs && t.run == s.run;
    }
    forall r: nat | 1 <= r <= t.run
      ensures r in t.workers || (r in t.logs && WholeLog(t.logs[r]))
    {
      assert r <= s.run ==> r in s.workers || (r in s.logs && WholeLog(s.logs[r]));
    }
  }

  lemma OwnerKeepsInv(s: State, a: Action)
    requires Inv(s) && Can(s, a) && Minds(s, a) && !OfWorker(a)
    ensures Inv(OwnerDo(s, a))
  {
    OwnerKeepsToken(s, a);
    OwnerKeepsWorkerLog(s, a);
    OwnerKeepsLogs(s, a);
  }

  lemma MicroKeepsLog(t: Thread, a: Action)
    requires OfWorker(a) && !a.Notify? && LogAt(Before(a), t)
    ensures LogAt(Micro(t, a).0, Micro(t, a).1)
  {
    var n := |t.calls|;
    match a
    case Look(_) =>
      if IsThreadDone(t.state) {
        DoneIsWhole(t);
      }
    case DoInit(_, ok) =>
      assert [InitInstance(true)] + GoodRuns(0) == [InitInstance(true)];
    case Check(_) =>
    case DoRun(_, ok) =>
      assert GoodRuns(n - 1) + [Run(true)] == GoodRuns(n);
      assert t.calls + [Run(true)] == [InitInstance(true)] + GoodRuns(n);
    case DoExit(_) =>
      ExitKeepsLog(t);
    case Finish(_) =>
  }

  lemma ExitKeepsLog(t: Thread)
    requires LogAt(AtExit, t)
    ensures LogFits(t.(calls := t.calls + [ExitInstance], state := if t.state == DoneRun then Done else DoneError))
  {
    var n := |t.calls|;
    if t.state == Error && t.calls != [InitInstance(false)] {
      assert t.calls + [ExitInstance] == [InitInstance(true)] + GoodRuns(n - 2) + [Run(false), ExitInstance];
    }
  }

  /** A worker that can take a step is the only one and holds the token. */
  lemma OneWorker(s: State, a: Action)
    requires TokenInv(s) && Can(s, a) && OfWorker(a)
    ensures a.r == s.run && s.workers == map[a.r := s.workers[a.r]] && Live(s, a.r)
    ensures s.sem == 0 && OwnerToken(s.owner) == 0 && (Starting(s.owner) ==> a.Notify?)
    ensures s.listed == {} || (s.listed == {a.r} && s.owed == 1)
    ensures a.Notify? ==> s.listed == {} && s.owed == 0
  {
    assert Live(s, a.r);
    assert s.workers.Keys == {a.r};
    if s.listed != {} {
      assert s.listed == {a.r};
    }
  }

  lemma WorkerKeepsToken(s: State, a: Action)
    requires TokenInv(s) && Can(s, a) && OfWorker(a)
    ensures TokenInv(WorkerDo(s, a))
  {
    OneWorker(s, a);
    var t := WorkerDo(s, a);
    if a.Notify? {
      assert t.workers == map[];
    } else {
      assert t.workers == map[a.r := t.workers[a.r]];
    }
  }

  lemma WorkerKeepsLogs(s: State, a: Action)
    requires Inv(s) && Can(s, a) && OfWorker(a)
    ensures LogInv(WorkerDo(s, a))
  {
    OneWorker(s, a);
    var t := WorkerDo(s, a);
    if a.Notify? {
      assert LogAt(AtNotify, View(s));
    }
    forall r: nat | 1 <= r <= t.run
      ensures r in t.workers || (r in t.logs && WholeLog(t.logs[r]))
    {
      assert r in s.workers || (r in s.logs && WholeLog(s.logs[r]));
    }
  }

  lemma WorkerKeepsWorkerLog(s: State, a: Action)
    requires TokenInv(s) && WorkerInv(s) && Can(s, a) && OfWorker(a)
    ensures WorkerInv(WorkerDo(s, a))
  {
    OneWorker(s, a);
    if !a.Notify? {
      assert LogAt(s.workers[a.r], View(s));
      MicroKeepsLog(View(s), a);
    }
  }

  lemma WorkerKeepsInv(s: State, a: Action)
    requires Inv(s) && Can(s, a) && OfWorker(a)
    ensures Inv(WorkerDo(s, a))
  {
    WorkerKeepsToken(s, a);
    WorkerKeepsWorkerLog(s, a);
    WorkerKeepsLogs(s, a);
  }

  lemma StepKeepsInv(s: State, a: Action)
    requires Inv(s) && Can(s, a) && Minds(s, a)
    ensures Inv(Do(s, a))
  {
    if OfWorker(a) {
      WorkerKeepsInv(s, a);
    } else {
      OwnerKeepsInv(s, a);
    }
  }

  // ----- What is promised -----

  /** The hooks that a worker called so far. */
  function LogOf(s: State, r: nat): seq<Call> {
    if r in s.workers then s.calls else if r in s.logs then s.logs[r] else []
  }

  /** The semaphore stays binary. A token that no worker holds means that no worker lives, and at
      most one ever does. Every worker calls its hooks in the order from `InitInstance` to
      `ExitInstance`, and has called them all once it lives no more. */
  ghost predicate Safe(s: State) {
    && s.sem + OwnerToken(s.owner) <= 1
    && (s.sem + OwnerToken(s.owner) > 0 ==> NobodyLives(s))
    && (forall r, q :: Live(s, r) && Live(s, q) ==> r == q)
    && (forall r: nat :: 1 <= r <= s.run ==> LogIsSafe(s, r))
  }

  predicate LogIsSafe(s: State, r: nat) {
    ProperLog(LogOf(s, r)) && (Live(s, r) || WholeLog(LogOf(s, r)))
  }

  lemma LogIsProper(pc: WorkerPc, t: Thread)
    requires LogAt(pc, t)
    ensures ProperLog(t.calls)
  {
  }

  lemma InvIsSafe(s: State)
    requires Inv(s)
    ensures Safe(s)
  {
    if s.sem + OwnerToken(s.owner) > 0 && s.workers != map[] {
      assert s.listed != {} && s.owed == 0;
    }
    forall r: nat | 1 <= r <= s.run
      ensures LogIsSafe(s, r)
    {
      if r in s.workers {
        assert LogAt(s.workers[r], View(s));
        LogIsProper(s.workers[r], View(s));
        if !Live(s, r) {
          DoneIsWhole(View(s));
        }
      }
    }
  }

  // ----- All interleavings -----

  predicate IsRun(s: State, actions: seq<Action>)
    decreases |actions|
  {
    actions == [] || (Can(s, actions[0]) && IsRun(Do(s, actions[0]), actions[1..]))
  }

  function Final(s: State, actions: seq<Action>): State
    requires IsRun(s, actions)
    decreases |actions|
  {
    if actions == [] then s else Final(Do(s, actions[0]), actions[1..])
  }

  predicate Disciplined(s: State, actions: seq<Action>)
    requires IsRun(s, actions)
    decreases |actions|
  {
    actions == [] || (Minds(s, actions[0]) && Disciplined(Do(s, actions[0]), actions[1..]))
  }

  lemma {:induction false} InvAlways(s: State, actions: seq<Action>)
    requires Inv(s) && IsRun(s, actions) && Disciplined(s, actions)
    ensures Inv(Final(s, actions))
    decreases |actions|
  {
    if actions != [] {
      StepKeepsInv(s, actions[0]);
      InvAlways(Do(s, actions[0]), actions[1..]);
    }
  }

  /** Every interleaving that keeps the discipline is safe. */
  lemma ExitProtocolIsSafe(actions: seq<Action>)
    requires IsRun(INITIAL, actions) && Disciplined(INITIAL, actions)
    ensures Safe(Final(INITIAL, actions))
  {
    InvAlways(INITIAL, actions);
    InvIsSafe(Final(INITIAL, actions));
  }

  // ----- Disciplined runs -----

  /** Some disciplined run leads from one state to another. */
  ghost predicate Reaches(s: State, t: State) {
    exists actions :: Leads(s, actions, t)
  }

  ghost predicate Leads(s: State, actions: seq<Action>, t: State) {
    IsRun(s, actions) && Disciplined(s, actions) && Final(s, actions) == t
  }

  lemma {:induction false} LeadsThen(s: State, a: seq<Action>, t: State, b: seq<Action>, u: State)
    requires Leads(s, a, t) && Leads(t, b, u)
    ensures Leads(s, a + b, u)
    decreases |a|
  {
    if a == [] {
      assert a + b == b;
    } else {
      assert (a + b)[1..] == a[1..] + b;
      LeadsThen(Do(s, a[0]), a[1..], t, b, u);
    }
  }

  lemma ReachesThen(s: State, t: State, u: State)
    requires Reaches(s, t) && Reaches(t, u)
    ensures Reaches(s, u)
  {
    var before :| Leads(s, before, t);
    var after :| Leads(t, after, u);
    LeadsThen(s, before, t, after, u);
  }

  lemma ReachesItself(s: State)
    ensures Reaches(s, s)
  {
    assert Leads(s, [], s);
  }

  lemma StepReaches(s: State, a: Action, t: State)
    requires Can(s, a) && Minds(s, a) && Do(s, a) == t
    ensures Reaches(s, t)
  {
    assert [a][1..] == [];
    assert Final(s, [a]) == Final(Do(s, a), [a][1..]) == t;
    assert Leads(s, [a], t);
  }

  lemma TwoStepsReach(s: State, a: Action, t: State, b: Action, u: State)
    requires Can(s, a) && Minds(s, a) && Do(s, a) == t
    requires Can(t, b) && Minds(t, b) && Do(t, b) == u
    ensures Reaches(s, u)
  {
    StepReaches(s, a, t);
    StepReaches(t, b, u);
    ReachesThen(s, t, u);
  }
}
