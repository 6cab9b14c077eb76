/** The discipline of the exit protocol is necessary: any step against it can be continued, by
    disciplined steps alone, to a state that is not safe. */
module ExitDiscipline {
  import opened ExitProtocol
  import opened ThreadLifeCycle

  /** Nothing can go wrong from here on as long as the discipline is kept from here on. */
  ghost predicate StaysSafe(s: State) {
    forall t :: Reaches(s, t) ==> Safe(t)
  }

  lemma InvStaysSafe(s: State)
    requires Inv(s)
    ensures StaysSafe(s)
  {
    forall t | Reaches(s, t)
      ensures Safe(t)
    {
      var actions :| Leads(s, actions, t);
      InvAlways(s, actions);
      InvIsSafe(t);
    }
  }

  lemma UnsafeNow(s: State)
    requires !Safe(s)
    ensures !StaysSafe(s)
  {
    ReachesItself(s);
  }

  // ----- EndComplexing and DeleteCiThread -----

  lemma EndComplexingBreaks(s: State)
    requires Inv(s) && Can(s, EndComplexing) && !Minds(s, EndComplexing)
    ensures !StaysSafe(Do(s, EndComplexing))
  {
    var t := Do(s, EndComplexing);
    if s.owed == 0 {
      if s.sem == 0 {
        var r :| r in s.workers;
        assert Live(t, r);
      }
    } else {
      var r :| r in s.workers && Live(s, r);
      assert Live(t, r);
    }
    UnsafeNow(t);
  }

  /** A log in which `InitInstance` is called, but not first, will never be whole. */
  predicate InitTwice(calls: seq<Call>) {
    exists i :: 1 <= i < |calls| && calls[i].InitInstance?
  }

  lemma InitTwiceIsImproper(calls: seq<Call>)
    requires InitTwice(calls)
    ensures !ProperLog(calls)
  {
  }

  predicate EndsWithExit(calls: seq<Call>) {
    calls != [] && calls[|calls| - 1] == ExitInstance
  }

  lemma WholeEndsWithExit(calls: seq<Call>)
    requires WholeLog(calls)
    ensures EndsWithExit(calls)
  {
  }

  /** Before its `ExitInstance` a worker's log is not whole. */
  lemma UnfinishedIsNotWhole(pc: WorkerPc, t: Thread)
    requires LogAt(pc, t) && pc != AtDone && pc != AtNotify && (pc == Head ==> !IsThreadDone(t.state))
    ensures !WholeLog(t.calls)
  {
    assert !EndsWithExit(t.calls);
    if WholeLog(t.calls) {
      WholeEndsWithExit(t.calls);
    }
  }

  lemma UnlistBreaks(s: State, r: nat)
    requires Inv(s) && Can(s, Unlist(r)) && !Minds(s, Unlist(r))
    ensures !StaysSafe(Do(s, Unlist(r)))
  {
    var t := Do(s, Unlist(r));
    assert LogAt(s.workers[r], View(s));
    UnfinishedIsNotWhole(Head, View(s));
    assert 1 <= r <= t.run && r !in t.workers;
    assert !LogIsSafe(t, r);
    UnsafeNow(t);
  }

  // ----- Setting an object going on which a worker still is -----

  /** The owner is between two statements of `PrepareRunning`, and a worker is in its loop. */
  predicate Disturbed(s: State, r: nat, owner: OwnerPc, pc: WorkerPc) {
    At(s, r, pc) && s.owner == owner && 1 <= r <= s.run
  }

  lemma WorkerSteps(s: State, a: Action, t: State, owner: OwnerPc, pc: WorkerPc)
    requires OfWorker(a) && !a.Notify? && Can(s, a) && t == Do(s, a) && Micro(View(s), a).0 == pc
    requires s.owner == owner && 1 <= a.r <= s.run
    ensures Disturbed(t, a.r, owner, pc) && View(t) == Micro(View(s), a).1
    ensures t.listed == s.listed && Reaches(s, t)
  {
    StepReaches(s, a, t);
  }

  /** However far it is, the worker gets to the head of its loop with a call in its log. */
  lemma GetsToHead(s: State, r: nat, pc: WorkerPc) returns (t: State)
    requires Disturbed(s, r, s.owner, pc) && pc != AtNotify && !s.exit
    requires pc == Head && s.calls == [] ==> s.state == Ready
    requires pc == AtDone ==> s.calls != []
    ensures Reaches(s, t) && Disturbed(t, r, s.owner, Head) && t.listed == s.listed && t.calls != []
  {
    match pc
    case Head =>
      if s.calls == [] {
        t := FailsInit(s, r, s.owner);
      } else {
        ReachesItself(s);
        t := s;
      }
    case AtInit =>
      ReachesItself(s);
      t := GetsThere(s, s, r, DoInit(r, false));
    case AtCheck =>
      var u := Do(s, Check(r));
      WorkerSteps(s, Check(r), u, s.owner, AtRun);
      t := GetsThere(s, u, r, DoRun(r, false));
    case AtRun =>
      ReachesItself(s);
      t := GetsThere(s, s, r, DoRun(r, false));
    case AtExit =>
      var u := Do(s, DoExit(r));
      WorkerSteps(s, DoExit(r), u, s.owner, AtDone);
      t := GetsThere(s, u, r, Finish(r));
    case AtDone =>
      ReachesItself(s);
      t := GetsThere(s, s, r, Finish(r));
  }

  /** The last step to the head of the loop. */
  lemma GetsThere(s: State, u: State, r: nat, a: Action) returns (t: State)
    requires Reaches(s, u) && OfWorker(a) && a.r == r && Can(u, a) && 1 <= r <= u.run
    requires a == DoInit(r, false) || a == DoRun(r, false) || (a == Finish(r) && u.calls != [])
    ensures Reaches(s, t) && Disturbed(t, r, u.owner, Head) && t.listed == u.listed && t.calls != []
  {
    t := Do(u, a);
    WorkerSteps(u, a, t, u.owner, Head);
    ReachesThen(s, u, t);
  }

  /** Once the owner has made the object ready, the worker calls `InitInstance` again, and fails. */
  lemma InitsAgain(s: State, r: nat, mode: Mode) returns (t: State)
    requires Disturbed(s, r, SettingReady(mode), Head) && s.calls != []
    ensures Reaches(s, t) && Disturbed(t, r, Acquiring(mode), Head) && t.listed == s.listed
    ensures t.state == Error && InitTwice(t.calls)
  {
    var u := Do(s, SetReady);
    StepReaches(s, SetReady, u);
    t := FailsInit(u, r, Acquiring(mode));
    ReachesThen(s, u, t);
    assert t.calls[|s.calls|] == InitInstance(false);
  }

  lemma FailsInit(s: State, r: nat, owner: OwnerPc) returns (t: State)
    requires Disturbed(s, r, owner, Head) && s.state == Ready
    ensures Reaches(s, t) && Disturbed(t, r, owner, Head) && t.listed == s.listed
    ensures t.state == Error && t.calls == s.calls + [InitInstance(false)]
  {
    var u := Do(s, Look(r));
    WorkerSteps(s, Look(r), u, owner, AtInit);
    t := Do(u, DoInit(r, false));
    WorkerSteps(u, DoInit(r, false), t, owner, Head);
    ReachesThen(s, u, t);
  }

  lemma CallsExit(s: State, r: nat, owner: OwnerPc) returns (t: State)
    requires Disturbed(s, r, owner, Head) && s.state == Error
    ensures Reaches(s, t) && Disturbed(t, r, owner, AtDone) && t.listed == s.listed
    ensures t.state == DoneExitInstanceError && t.calls == s.calls + [ExitInstance]
  {
    var u := Do(s, Look(r));
    WorkerSteps(s, Look(r), u, owner, AtExit);
    t := Do(u, DoExit(r));
    WorkerSteps(u, DoExit(r), t, owner, AtDone);
    ReachesThen(s, u, t);
  }

  /** It goes through its loop to the end, */
  lemma EndsImproperly(s: State, r: nat, owner: OwnerPc) returns (t: State)
    requires Disturbed(s, r, owner, Head) && s.state == Error && InitTwice(s.calls)
    ensures Reaches(s, t) && Disturbed(t, r, owner, Head) && t.listed == s.listed
    ensures t.state == DoneError && InitTwice(t.calls)
  {
    var u := CallsExit(s, r, owner);
    t := Do(u, Finish(r));
    WorkerSteps(u, Finish(r), t, owner, Head);
    ReachesThen(s, u, t);
    var i :| 1 <= i < |s.calls| && s.calls[i].InitInstance?;
    assert t.calls[i] == s.calls[i];
  }

  /** and leaves the object, or rests on its list. */
  lemma LeavesImproperly(s: State, r: nat, owner: OwnerPc) returns (t: State)
    requires Disturbed(s, r, owner, Head) && s.state == DoneError && InitTwice(s.calls)
    ensures Reaches(s, t) && 1 <= r <= t.run && !Live(t, r) && !WholeLog(LogOf(t, r))
  {
    InitTwiceIsImproper(s.calls);
    if r in s.listed {
      ReachesItself(s);
      t := s;
    } else {
      var u := Do(s, Look(r));
      WorkerSteps(s, Look(r), u, owner, AtNotify);
      t := Do(u, Notify(r));
      StepReaches(u, Notify(r), t);
      ReachesThen(s, u, t);
    }
  }

  /** A start while a worker is in its loop can be continued so that the worker ends with a log
      that is not whole. */
  lemma CallSpoilsLog(s: State, mode: Mode, r: nat) returns (t: State)
    requires Inv(s) && Can(s, Call(mode)) && r in s.workers && s.workers[r] != AtNotify
    ensures Reaches(Do(s, Call(mode)), t) && 1 <= r <= t.run && !Live(t, r) && !WholeLog(LogOf(t, r))
  {
    var u := Do(s, Call(mode));
    assert LogAt(s.workers[r], View(s));
    var v := GetsToHead(u, r, s.workers[r]);
    var w := InitsAgain(v, r, mode);
    var x := EndsImproperly(w, r, Acquiring(mode));
    t := LeavesImproperly(x, r, Acquiring(mode));
    ReachesThen(u, v, w);
    ReachesThen(u, w, x);
    ReachesThen(u, x, t);
  }

  lemma CallBreaks(s: State, mode: Mode)
    requires Inv(s) && Can(s, Call(mode)) && !Minds(s, Call(mode))
    ensures !StaysSafe(Do(s, Call(mode)))
  {
    var r :| r in s.workers && s.workers[r] != AtNotify;
    var t := CallSpoilsLog(s, mode, r);
    assert !LogIsSafe(t, r);
  }

  // ----- The discipline is exact -----

  /** A step keeps the object safe whatever disciplined steps follow, exactly when it keeps the
      discipline itself. */
  lemma DisciplineIsExact(s: State, a: Action)
    requires Inv(s) && Can(s, a)
    ensures StaysSafe(Do(s, a)) <==> Minds(s, a)
  {
    if Minds(s, a) {
      StepKeepsInv(s, a);
      InvStaysSafe(Do(s, a));
    } else {
      match a
      case Call(mode) => CallBreaks(s, mode);
      case EndComplexing => EndComplexingBreaks(s);
      case Unlist(r) => UnlistBreaks(s, r);
    }
  }

  /** Safe after every step of a run, and with every disciplined continuation. */
  ghost predicate SafeThroughout(s: State, actions: seq<Action>)
    requires IsRun(s, actions)
    decreases |actions|
  {
    StaysSafe(s) && (actions == [] || SafeThroughout(Do(s, actions[0]), actions[1..]))
  }

  lemma {:induction false} SafeIffDisciplinedFrom(s: State, actions: seq<Action>)
    requires Inv(s) && IsRun(s, actions)
    ensures SafeThroughout(s, actions) <==> Disciplined(s, actions)
    decreases |actions|
  {
    InvStaysSafe(s);
    if actions != [] {
      DisciplineIsExact(s, actions[0]);
      if Minds(s, actions[0]) {
        StepKeepsInv(s, actions[0]);
        SafeIffDisciplinedFrom(Do(s, actions[0]), actions[1..]);
      } else {
        NotStaying(Do(s, actions[0]), actions[1..]);
      }
    }
  }

  lemma NotStaying(s: State, actions: seq<Action>)
    requires IsRun(s, actions) && !StaysSafe(s)
    ensures !SafeThroughout(s, actions)
  {
  }

  /** For all runs: the protocol is safe throughout exactly when the discipline is kept. */
  lemma SafeIffDisciplined(actions: seq<Action>)
    requires IsRun(INITIAL, actions)
    ensures SafeThroughout(INITIAL, actions) <==> Disciplined(INITIAL, actions)
  {
    SafeIffDisciplinedFrom(INITIAL, actions);
  }

  // ----- It can be broken -----

  /** An object that a complex is about to run. */
  function Added(): State {
    State(0, false, false, Ready, Idle, map[1 := Head], {1}, 1, 1, [], map[])
  }

  /** An object that a complex is running. */
  function Complexed(): State {
    State(0, false, false, DoneInitInstance, Idle, map[1 := AtRun], {1}, 1, 1, [InitInstance(true)], map[])
  }

  lemma AddedIsReached()
    ensures Reaches(INITIAL, Added())
  {
    var s1 := State(1, false, false, Ready, SettingReady(Complex), map[], {}, 0, 0, [], map[]);
    var s2 := s1.(owner := Acquiring(Complex));
    TwoStepsReach(INITIAL, Call(Complex), s1, SetReady, s2);
    AddedIsNext(s2);
    ReachesThen(INITIAL, s2, Added());
  }

  lemma AddedIsNext(s: State)
    requires s == State(1, false, false, Ready, Acquiring(Complex), map[], {}, 0, 0, [], map[])
    ensures Reaches(s, Added())
  {
    var t := State(0, false, false, Ready, Acquired(Complex), map[], {}, 0, 0, [], map[]);
    assert Do(t, Spawn).workers == map[1 := Head];
    TwoStepsReach(s, Acquire, t, Spawn, Added());
  }

  lemma ComplexedIsReached()
    ensures Reaches(INITIAL, Complexed())
  {
    var s2 := Complexed().(workers := map[1 := AtCheck]);
    AddedIsReached();
    AddedInits(Added());
    CheckPasses(s2);
    ReachesThen(INITIAL, Added(), s2);
    ReachesThen(INITIAL, s2, Complexed());
  }

  lemma AddedInits(s: State)
    requires s == Added()
    ensures Reaches(s, Complexed().(workers := map[1 := AtCheck]))
  {
    TwoStepsReach(s, Look(1), s.(workers := map[1 := AtInit]),
                  DoInit(1, true), Complexed().(workers := map[1 := AtCheck]));
  }

  lemma CheckPasses(s: State)
    requires s == Complexed().(workers := map[1 := AtCheck])
    ensures Reaches(s, Complexed())
  {
    StepReaches(s, Check(1), Complexed());
  }

  /** The same object when it has been made ready in the middle of `Run`. */
  function Restarted(workers: map<nat, WorkerPc>, state: ThreadState, calls: seq<Call>): State {
    State(0, false, false, state, Acquiring(Create), workers, {1}, 1, 1, calls, map[])
  }

  lemma RestartedRuns()
    ensures Reaches(Complexed().(owner := SettingReady(Create)),
                    Restarted(map[1 := Head], Ready, [InitInstance(true), Run(true)]))
  {
    var calls := [InitInstance(true)];
    assert calls + [Run(true)] == [InitInstance(true), Run(true)];
    TwoStepsReach(Complexed().(owner := SettingReady(Create)), SetReady, Restarted(map[1 := AtRun], Ready, calls),
                  DoRun(1, true), Restarted(map[1 := Head], Ready, [InitInstance(true), Run(true)]));
  }

  lemma RestartedInits()
    ensures Reaches(Restarted(map[1 := Head], Ready, [InitInstance(true), Run(true)]), Reinitialised())
  {
    var calls := [InitInstance(true), Run(true)];
    TwoStepsReach(Restarted(map[1 := Head], Ready, calls), Look(1), Restarted(map[1 := AtInit], Ready, calls),
                  DoInit(1, true), Reinitialised());
  }

  function Reinitialised(): State {
    Restarted(map[1 := AtCheck], DoneInitInstance, [InitInstance(true), Run(true), InitInstance(true)])
  }

  lemma ReinitialisedIsBroken()
    ensures !Can(Reinitialised(), Acquire) && !Safe(Reinitialised())
  {
    var t := Reinitialised();
    assert t.calls[2].InitInstance?;
    InitTwiceIsImproper(t.calls);
    assert !LogIsSafe(t, 1);
  }

  lemma ComplexedIsCalled()
    ensures Can(Complexed(), Call(Create)) && !Minds(Complexed(), Call(Create))
    ensures Do(Complexed(), Call(Create)) == Complexed().(owner := SettingReady(Create))
  {
    assert Complexed().workers[1] == AtRun;
  }

  /** An object that a complex runs has no handle, so `CreateThread` goes ahead: it makes the
      object ready again, and the complex calls `InitInstance` once more in the middle of the
      run, while the owner waits for a token that nobody is about to return. */
  lemma CreateThreadOnComplexed()
    ensures Reaches(INITIAL, Complexed())
    ensures Can(Complexed(), Call(Create)) && !Minds(Complexed(), Call(Create))
    ensures Reaches(Do(Complexed(), Call(Create)), Reinitialised())
    ensures Reinitialised().calls == [InitInstance(true), Run(true), InitInstance(true)]
    ensures !Can(Reinitialised(), Acquire) && !Safe(Reinitialised())
  {
    ComplexedIsReached();
    ComplexedIsCalled();
    RestartedRuns();
    RestartedInits();
    ReachesThen(Complexed().(owner := SettingReady(Create)),
                Restarted(map[1 := Head], Ready, [InitInstance(true), Run(true)]), Reinitialised());
    ReinitialisedIsBroken();
  }
}
