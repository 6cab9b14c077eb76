/** How the waits of the exit protocol end: that a worker's way round its loop is a call of
    `ThreadProc`, that `EndThread` bounds what is still to come, when the owner waits for ever,
    and what it may rely on when `WaitUntilExit` returns. */
module ExitWaits {
  import opened ExitDiscipline
  import opened ExitProtocol
  import opened ThreadLifeCycle

  // ----- Statement by statement, a call of ThreadProc -----

  /** What a call of `ThreadProc` comes to that has got as far as `pc`. */
  function RestOfCall(pc: WorkerPc, t: Thread, a: Answers): Thread {
    match pc
    case AtInit => Proc(t.(state := Ready), a)
    case AtCheck => ProcAfterInit(t, a)
    case AtRun => t.(state := if a.runOk then t.state else Error, calls := t.calls + [Run(a.runOk)])
    case AtExit => t.(state := if t.state == DoneRun then Done else DoneError, calls := t.calls + [ExitInstance])
    case AtDone => t.(state := if t.state == DoneExitInstance then Done else DoneError)
    case _ => t
  }

  predicate InLoop(pc: WorkerPc) {
    pc != Head && pc != AtNotify
  }

  /** The same but for the exit flag. */
  predicate Alike(t: Thread, u: Thread) {
    t.state == u.state && t.calls == u.calls
  }

  lemma StatementIsPart(pc: WorkerPc, t: Thread, x: Action, a: Answers) returns (b: Answers)
    requires OfWorker(x) && InLoop(pc) && Before(x) == pc && LogAt(pc, t)
    ensures var (q, u) := Micro(t, x);
            q != AtNotify && u.exit == t.exit && Alike(RestOfCall(q, u, a), RestOfCall(pc, t, b))
  {
    b := match x
         case DoInit(_, ok) => a.(initOk := ok)
         case Check(_) => a.(ended := false)
         case DoRun(_, ok) => a.(runOk := ok)
         case _ => a;
  }

  /** `EndThread` during the call. */
  lemma EndThreadIsPart(pc: WorkerPc, t: Thread, a: Answers)
    requires InLoop(pc) && LogAt(pc, t)
    ensures Alike(RestOfCall(pc, t.(exit := true), a), RestOfCall(pc, t, a.(ended := true)))
  {
  }

  /** From here the worker gets round to the head of its loop for the first time at the end. */
  predicate ComesRound(s: State, actions: seq<Action>, r: nat)
    requires IsRun(s, actions)
    decreases |actions|
  {
    if actions == [] then At(s, r, Head)
    else r in s.workers && InLoop(s.workers[r]) && ComesRound(Do(s, actions[0]), actions[1..], r)
  }

  lemma {:induction false} RestIsCall(s: State, actions: seq<Action>, r: nat) returns (a: Answers)
    requires Inv(s) && IsRun(s, actions) && Disciplined(s, actions) && ComesRound(s, actions, r)
    ensures r in s.workers && Alike(View(Final(s, actions)), RestOfCall(s.workers[r], View(s), a))
    ensures Final(s, actions).exit <==> s.exit || EndThread in actions
    decreases |actions|
  {
    if actions == [] {
      a := Answers(false, false, false);
    } else {
      var x, t := actions[0], Do(s, actions[0]);
      StepKeepsInv(s, x);
      a := RestIsCall(t, actions[1..], r);
      a := StepIsPart(s, x, r, a);
      assert actions == [x] + actions[1..];
    }
  }

  lemma StepIsPart(s: State, x: Action, r: nat, a: Answers) returns (b: Answers)
    requires Inv(s) && Can(s, x) && Minds(s, x) && r in s.workers && InLoop(s.workers[r]) && r in Do(s, x).workers
    ensures Alike(RestOfCall(Do(s, x).workers[r], View(Do(s, x)), a), RestOfCall(s.workers[r], View(s), b))
    ensures Do(s, x).exit <==> s.exit || x == EndThread
  {
    assert LogAt(s.workers[r], View(s));
    if OfWorker(x) {
      OneWorker(s, x);
      b := StatementIsPart(s.workers[r], View(s), x, a);
    } else {
      assert !x.Spawn?;
      OwnerLeavesWorkers(s, x);
      b := if x == EndThread then a.(ended := true) else a;
      EndThreadIsPart(s.workers[r], View(s), a);
    }
  }

  /** In every disciplined interleaving a worker's way from the head of its loop back to it is
      one call of `ThreadProc`, for some answers of the hooks. The exit flag, which `EndThread`
      may still raise after the call has read it, is up if it was, or if `EndThread` was called. */
  lemma LoopIsProc(s: State, actions: seq<Action>, r: nat) returns (a: Answers)
    requires Inv(s) && Can(s, Look(r)) && !IsThreadDone(s.state)
    requires var t := Do(s, Look(r)); IsRun(t, actions) && Disciplined(t, actions) && ComesRound(t, actions, r)
    ensures var t := Final(Do(s, Look(r)), actions);
            Alike(View(t), Proc(View(s), a)) && (t.exit <==> s.exit || EndThread in actions)
  {
    var t := Do(s, Look(r));
    assert LogAt(Head, View(s));
    StepKeepsInv(s, Look(r));
    a := RestIsCall(t, actions, r);
  }

  // ----- EndThread -----

  function PcRank(pc: WorkerPc, t: ThreadState): nat {
    match pc
    case AtNotify => 1
    case AtDone => 3
    case AtExit => 4
    case AtCheck => 5
    case AtInit => 6
    case AtRun => 7
    case Head =>
      match t
      case Done => 2
      case DoneError => 2
      case DoneInitInstance => 6
      case Ready => 7
      case _ => 5
  }

  /** How many steps the worker on the object may still take once the exit flag is up. */
  function Rank(s: State): nat {
    if s.run in s.workers then PcRank(s.workers[s.run], s.state) else 0
  }

  /** A thread yet to be spawned takes seven. */
  function Ahead(pc: OwnerPc): nat {
    if pc.SettingReady? || pc.Acquiring? || pc.Acquired? then 7 else 0
  }

  function WorkerSteps(actions: seq<Action>): nat {
    if actions == [] then 0 else (if OfWorker(actions[0]) then 1 else 0) + WorkerSteps(actions[1..])
  }

  lemma StepLowersRank(s: State, a: Action)
    requires TokenInv(s) && WorkerInv(s) && Can(s, a) && s.exit && !a.Call? && OfWorker(a)
    ensures Do(s, a).exit && Rank(Do(s, a)) + Ahead(Do(s, a).owner) < Rank(s) + Ahead(s.owner)
  {
    OneWorker(s, a);
    assert LogAt(s.workers[a.r], View(s));
  }

  lemma OwnerLowersRank(s: State, a: Action)
    requires TokenInv(s) && Can(s, a) && Minds(s, a) && s.exit && !a.Call? && !OfWorker(a)
    ensures Do(s, a).exit && Rank(Do(s, a)) + Ahead(Do(s, a).owner) <= Rank(s) + Ahead(s.owner)
  {
    if a.Spawn? {
      SpawnKeepsToken(s);
    } else {
      OwnerLeavesWorkers(s, a);
    }
  }

  lemma RankIsSmall(s: State)
    requires TokenInv(s)
    ensures Rank(s) + Ahead(s.owner) <= if Ahead(s.owner) > 0 && s.run in s.workers then 8 else 7
  {
  }

  /** After `EndThread` the object is run for at most seven more steps, whatever its hooks answer
      and however the owner interferes, short of another call to set it going. If one is under
      way, these are the steps of the thread it spawns, and a worker that is past its loop still
      returns its token. */
  lemma {:induction false} EndThreadBoundsTheRun(s: State, actions: seq<Action>)
    requires Inv(s) && s.exit && IsRun(s, actions) && Disciplined(s, actions)
    requires forall a <- actions :: !a.Call?
    ensures WorkerSteps(actions) + Rank(Final(s, actions)) <= Rank(s) + Ahead(s.owner)
    ensures Rank(s) + Ahead(s.owner) <= if Ahead(s.owner) > 0 && s.run in s.workers then 8 else 7
    decreases |actions|
  {
    RankIsSmall(s);
    if actions != [] {
      if OfWorker(actions[0]) {
        StepLowersRank(s, actions[0]);
      } else {
        OwnerLowersRank(s, actions[0]);
      }
      StepKeepsInv(s, actions[0]);
      EndThreadBoundsTheRun(Do(s, actions[0]), actions[1..]);
    }
  }

  // ----- Waiting for ever -----

  /** The step that a worker can take. */
  function NextOf(s: State, r: nat): Action
    requires r in s.workers
  {
    match s.workers[r]
    case Head => Look(r)
    case AtInit => DoInit(r, true)
    case AtCheck => Check(r)
    case AtRun => DoRun(r, true)
    case AtExit => DoExit(r)
    case AtDone => Finish(r)
    case AtNotify => Notify(r)
  }

  ghost predicate WorkerMoves(s: State) {
    exists a :: OfWorker(a) && Can(s, a)
  }

  lemma LiveMoves(s: State)
    ensures WorkerMoves(s) <==> !NobodyLives(s)
  {
    if WorkerMoves(s) {
      var a :| OfWorker(a) && Can(s, a);
      assert Live(s, a.r);
    }
    if !NobodyLives(s) {
      var r :| r in s.workers && Live(s, r);
      assert OfWorker(NextOf(s, r)) && Can(s, NextOf(s, r));
    }
  }

  /** A waiting owner can pass, or the worker it waits for can take a step, exactly unless the
      token is the one of `PrepareComplexing` on an object that is done: that one the owner would
      have to return itself. */
  lemma WaitIsStuckIff(s: State)
    requires Inv(s) && s.owner == Waiting
    ensures Can(s, PassWait) || WorkerMoves(s) <==> !(s.owed > 0 && NobodyLives(s))
  {
    LiveMoves(s);
  }

  /** `PrepareRunning` waits for a worker that is past its loop; it waits for ever exactly when the
      owner itself has the token to return, by `EndComplexing`. */
  lemma StartIsStuckIff(s: State)
    requires Inv(s) && s.owner.Acquiring?
    ensures Can(s, Acquire) || WorkerMoves(s) <==> s.owed == 0
  {
    LiveMoves(s);
  }

  // ----- What a return from WaitUntilExit means -----

  /** Every worker that was ever started is done with the object, by all its hooks. */
  predicate Over(s: State) {
    forall r: nat :: 1 <= r <= s.run ==> !Live(s, r) && WholeLog(LogOf(s, r))
  }

  /** When `WaitUntilExit` returns, all is over exactly if it found a handle, and therefore
      waited, or nobody was live anyway. */
  lemma WaitUntilExitIff(s: State, a: Action)
    requires Inv(s) && Can(s, a) && (a == Repost || a == SkipWait)
    ensures Over(Do(s, a)) <==> a == Repost || NobodyLives(s)
  {
    var t := Do(s, a);
    InvIsSafe(s);
    if a == Repost {
      assert NobodyLives(s);
    }
    forall r: nat | 1 <= r <= s.run
      ensures LogIsSafe(s, r) && (Live(t, r) <==> Live(s, r)) && LogOf(t, r) == LogOf(s, r)
    {
    }
  }

  /** The worker's `ExitInstance` was called. */
  predicate PastExit(s: State, r: nat) {
    At(s, r, AtDone) || At(s, r, AtNotify) || (At(s, r, Head) && IsThreadDone(s.state))
  }

  /** Without a handle it returns at once, and then the hooks of all workers were called to the
      end exactly if no worker has its `ExitInstance` still to call. */
  lemma SkippedWaitIff(s: State)
    requires Inv(s) && Can(s, SkipWait)
    ensures (forall r: nat :: 1 <= r <= s.run ==> WholeLog(LogOf(s, r))) <==> (forall r <- s.workers :: PastExit(s, r))
  {
    forall r <- s.workers
      ensures 1 <= r <= s.run && LogOf(s, r) == s.calls && (WholeLog(s.calls) <==> PastExit(s, r))
    {
      assert LogAt(s.workers[r], View(s));
      PastExitIsWhole(s.workers[r], View(s));
    }
  }

  lemma PastExitIsWhole(pc: WorkerPc, t: Thread)
    requires LogAt(pc, t)
    ensures WholeLog(t.calls) <==> pc == AtDone || pc == AtNotify || (pc == Head && IsThreadDone(t.state))
  {
    if pc == Head && IsThreadDone(t.state) {
      DoneIsWhole(t);
    } else if pc != AtDone && pc != AtNotify {
      UnfinishedIsNotWhole(pc, t);
    }
  }

  /** An object that a complex runs never has a handle of its own: `WaitUntilExit` returns in the
      middle of the run. */
  lemma SkippedWaitOnComplexed()
    ensures Reaches(INITIAL, Complexed()) && Can(Complexed(), SkipWait) && Do(Complexed(), SkipWait) == Complexed()
    ensures Live(Complexed(), 1) && !WholeLog(LogOf(Complexed(), 1)) && !Over(Complexed())
  {
    ComplexedIsReached();
    assert !EndsWithExit(LogOf(Complexed(), 1));
    if WholeLog(LogOf(Complexed(), 1)) {
      WholeEndsWithExit(LogOf(Complexed(), 1));
    }
  }

  // ----- The handle -----

  /** Once a thread's handle is stored neither `CreateThread` nor `RunThreadHere` goes ahead, and
      `WaitUntilExit` waits. */
  lemma StoredHandleBlocks(s: State)
    requires Inv(s) && Can(s, StoreHandle)
    ensures var t := Do(s, StoreHandle);
            && !Can(t, Call(Create)) && !Can(t, Call(Here)) && Can(t, CallWait) && !Can(t, SkipWait)
  {
  }

  /** When `WaitUntilExit` has waited and returns, and when the creation of a thread has failed, the
      handle is free again, and so is the way for `CreateThread` and `RunThreadHere`. */
  lemma HandleIsFreed(s: State, a: Action)
    requires Inv(s) && Can(s, a) && (a == Repost || a == PostAfterFailure)
    ensures var t := Do(s, a);
            t.owner == Idle && !t.handle && t.sem == s.sem + 1 && Can(t, Call(Create)) && Can(t, Call(Here))
    ensures a == PostAfterFailure ==> Do(s, a).exit
  {
  }

  /** A wait that finds the token returns, and puts the token back. */
  lemma WaitCompletes(s: State)
    requires Inv(s) && s.owner == Waiting && s.sem > 0
    ensures Reaches(s, s.(owner := Idle, handle := false)) && Can(s.(owner := Idle, handle := false), Call(Create))
  {
    var t := s.(sem := s.sem - 1, owner := Clearing);
    var u := t.(handle := false, owner := Reposting);
    TwoStepsReach(s, PassWait, t, ClearHandle, u);
    StepReaches(u, Repost, s.(owner := Idle, handle := false));
    ReachesThen(s, u, s.(owner := Idle, handle := false));
  }

  /** A creation that fails hands the token back. */
  lemma FailureCompletes(s: State)
    requires Inv(s) && s.owner == Acquired(Create)
    ensures Reaches(s, s.(owner := Idle, handle := false, exit := true, sem := s.sem + 1))
  {
    TwoStepsReach(s, SpawnFails, s.(exit := true, owner := Failing),
                  PostAfterFailure, s.(owner := Idle, handle := false, exit := true, sem := s.sem + 1));
  }

  // ----- It does wait for ever -----

  /** The worker that `Spawn` would start, at the head of its loop with the given state and log. */
  function Begun(s: State, mode: Mode, state: ThreadState, calls: seq<Call>): State
    requires s.owner == Idle
  {
    var t := s.(sem := 0, exit := false, state := state, run := s.run + 1,
                workers := map[s.run + 1 := Head], calls := calls);
    match mode
    case Create => t.(owner := Storing)
    case Here => t.(owner := RunningHere)
    case Complex => t.(listed := {s.run + 1}, owed := 1)
  }

  /** An object that can be set going. */
  predicate Startable(s: State, mode: Mode) {
    && s.sem == 1 && s.owner == Idle && s.workers == map[] && s.listed == {} && s.owed == 0
    && (mode != Complex ==> !s.handle)
  }

  lemma StartReaches(s: State, mode: Mode)
    requires Startable(s, mode)
    ensures Reaches(s, Begun(s, mode, Ready, []))
  {
    var s1 := s.(exit := false, owner := SettingReady(mode));
    var s2 := s1.(state := Ready, owner := Acquiring(mode));
    TwoStepsReach(s, Call(mode), s1, SetReady, s2);
    SpawnReaches(s, s2, mode);
    ReachesThen(s, s2, Begun(s, mode, Ready, []));
  }

  lemma SpawnReaches(s: State, t: State, mode: Mode)
    requires Startable(s, mode) && t == s.(exit := false, state := Ready, owner := Acquiring(mode))
    ensures Reaches(t, Begun(s, mode, Ready, []))
  {
    var u := t.(sem := 0, owner := Acquired(mode));
    assert Do(u, Spawn).workers == map[s.run + 1 := Head];
    TwoStepsReach(t, Acquire, u, Spawn, Begun(s, mode, Ready, []));
  }

  const FAILED: seq<Call> := [InitInstance(false), ExitInstance]

  lemma FailureReaches(s: State, r: nat)
    requires s.workers == map[r := Head] && s.state == Ready && s.calls == []
    ensures Reaches(s, s.(state := Error, calls := [InitInstance(false)]))
  {
    TwoStepsReach(s, Look(r), s.(workers := map[r := AtInit]),
                  DoInit(r, false), s.(state := Error, calls := [InitInstance(false)]));
  }

  lemma ErrorReaches(s: State, r: nat)
    requires s.workers == map[r := Head] && s.state == Error && s.calls == [InitInstance(false)]
    ensures Reaches(s, s.(workers := map[r := AtDone], state := DoneExitInstanceError, calls := FAILED))
  {
    TwoStepsReach(s, Look(r), s.(workers := map[r := AtExit]),
                  DoExit(r), s.(workers := map[r := AtDone], state := DoneExitInstanceError, calls := FAILED));
  }

  lemma FinishReaches(s: State, r: nat)
    requires s.workers == map[r := AtDone] && s.state == DoneExitInstanceError
    ensures Reaches(s, s.(workers := map[r := Head], state := DoneError))
  {
    StepReaches(s, Finish(r), s.(workers := map[r := Head], state := DoneError));
  }

  lemma FailedReaches(s: State, r: nat, t: State)
    requires s.workers == map[r := Head] && s.state == Ready && s.calls == []
    requires t == s.(state := DoneError, calls := FAILED)
    ensures Reaches(s, t)
  {
    var u := s.(state := Error, calls := [InitInstance(false)]);
    var v := u.(workers := map[r := AtDone], state := DoneExitInstanceError, calls := FAILED);
    FailureReaches(s, r);
    ErrorReaches(u, r);
    FinishReaches(v, r);
    ReachesThen(s, u, v);
    ReachesThen(s, v, t);
  }

  /** The object is set going, and its `InitInstance` fails. */
  lemma FailedStartReaches(s: State, mode: Mode)
    requires Startable(s, mode)
    ensures Reaches(s, Begun(s, mode, DoneError, FAILED))
  {
    StartReaches(s, mode);
    FailedReaches(Begun(s, mode, Ready, []), s.run + 1, Begun(s, mode, DoneError, FAILED));
    ReachesThen(s, Begun(s, mode, Ready, []), Begun(s, mode, DoneError, FAILED));
  }

  /** After a thread of its own the object is done, and its handle is still set. */
  function Ended(): State {
    State(1, true, false, DoneError, Idle, map[], {}, 0, 1, FAILED, map[1 := FAILED])
  }

  lemma EndedIsReached()
    ensures Reaches(INITIAL, Ended())
  {
    var s := Begun(INITIAL, Create, DoneError, FAILED);
    FailedStartReaches(INITIAL, Create);
    EndedIsNext(s);
    ReachesThen(INITIAL, s, Ended());
  }

  lemma EndedIsNext(s: State)
    requires s == Begun(INITIAL, Create, DoneError, FAILED)
    ensures Reaches(s, Ended())
  {
    var s1 := s.(workers := map[1 := AtNotify]);
    var s2 := s.(workers := map[], sem := 1, logs := map[1 := FAILED]);
    TwoStepsReach(s, Look(1), s1, Notify(1), s2);
    StepReaches(s2, StoreHandle, Ended());
    ReachesThen(s, s2, Ended());
  }

  /** A state that no step but `EndThread` leaves. */
  ghost predicate StuckFor(s: State) {
    forall a :: Can(s, a) ==> a == EndThread
  }

  /** The owner of a thread that has ended calls `PrepareComplexing`, which nothing forbids while
      the handle is still set. When the complex is done with the object, `WaitUntilExit` waits
      for a token that only the owner could return. */
  function StuckWaiting(): State {
    Begun(Ended(), Complex, DoneError, FAILED).(owner := Waiting)
  }

  lemma NobodyMovesWaiting()
    ensures StuckFor(StuckWaiting())
  {
  }

  lemma StuckWait()
    ensures Reaches(INITIAL, StuckWaiting()) && StuckFor(StuckWaiting())
  {
    var s := Begun(Ended(), Complex, DoneError, FAILED);
    EndedIsReached();
    FailedStartReaches(Ended(), Complex);
    StepReaches(s, CallWait, StuckWaiting());
    ReachesThen(INITIAL, Ended(), s);
    ReachesThen(INITIAL, s, StuckWaiting());
    NobodyMovesWaiting();
  }

  /** An object that was taken off its complex when it was done; the owner has not returned the
      token of `PrepareComplexing`. */
  function Unlisted(): State {
    State(0, false, false, DoneError, Idle, map[], {}, 1, 1, FAILED, map[1 := FAILED])
  }

  function StuckStarting(): State {
    Unlisted().(state := Ready, owner := Acquiring(Complex))
  }

  lemma UnlistedIsReached()
    ensures Reaches(INITIAL, Unlisted())
  {
    var s := Begun(INITIAL, Complex, DoneError, FAILED);
    FailedStartReaches(INITIAL, Complex);
    UnlistedIsNext(s);
    ReachesThen(INITIAL, s, Unlisted());
  }

  lemma UnlistedIsNext(s: State)
    requires s == Begun(INITIAL, Complex, DoneError, FAILED)
    ensures Reaches(s, Unlisted())
  {
    StepReaches(s, Unlist(1), Unlisted());
  }

  lemma StartingIsNext()
    ensures Reaches(Unlisted(), StuckStarting()) && StuckFor(StuckStarting())
  {
    TwoStepsReach(Unlisted(), Call(Complex), Unlisted().(owner := SettingReady(Complex)), SetReady, StuckStarting());
  }

  /** If the owner then calls `PrepareComplexing` again, it waits for a token that it owes itself. */
  lemma StuckStart()
    ensures Reaches(INITIAL, StuckStarting()) && StuckFor(StuckStarting())
  {
    UnlistedIsReached();
    StartingIsNext();
    ReachesThen(INITIAL, Unlisted(), StuckStarting());
  }
}
