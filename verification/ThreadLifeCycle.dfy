/** The life cycle of a thread object: the fall-through switch of `ThreadProc` and the loop
    that calls it until the thread is done. */
module ThreadLifeCycle {
  datatype ThreadState =
    | Ready
    | DoneInitInstance
    | DoneRun
    | DoneExitInstance
    | DoneExitInstanceError
    | Done
    | DoneError
    | Error
    | Inactive

  predicate IsThreadDone(s: ThreadState) {
    s == Done || s == DoneError
  }

  /** The calls of the overridable hooks, with their results. */
  datatype Call = InitInstance(ok: bool) | Run(ok: bool) | ExitInstance

  /** What the hooks answer during one call of `ThreadProc`, and whether `EndThread` was
      called by the time the exit flag is read. */
  datatype Answers = Answers(initOk: bool, ended: bool, runOk: bool)

  datatype Thread = Thread(state: ThreadState, exit: bool, calls: seq<Call>)

  /** One call of `ThreadProc`: where each state leads. */
  function Proc(t: Thread, a: Answers): (r: Thread)
    requires !IsThreadDone(t.state)
  {
    match t.state
    case Ready =>
      var u := t.(calls := t.calls + [InitInstance(a.initOk)]);
      if a.initOk then ProcAfterInit(u, a) else u.(state := Error)
    case DoneInitInstance => ProcAfterInit(t, a)
    case DoneRun => t.(state := Done, calls := t.calls + [ExitInstance])
    case DoneExitInstance => t.(state := Done)
    case DoneExitInstanceError => t.(state := DoneError)
    case _ => t.(state := DoneError, calls := t.calls + [ExitInstance])
  }

  function ProcAfterInit(t: Thread, a: Answers): Thread {
    if t.exit || a.ended then Thread(Done, true, t.calls + [ExitInstance])
    else t.(state := if a.runOk then DoneInitInstance else Error, calls := t.calls + [Run(a.runOk)])
  }

  class CiThread {
    var state: ThreadState
    var exit: bool
    ghost var calls: seq<Call>

    ghost function View(): Thread
      reads this
    {
      Thread(state, exit, calls)
    }

    constructor ()
      ensures View() == Thread(Ready, true, [])
    {
      state, exit, calls := Ready, true, [];
    }

    /** What `PrepareRunning` sets before it takes the exit semaphore. */
    method PrepareRunning()
      modifies this
      ensures View() == Thread(Ready, false, [])
    {
      exit, state, calls := false, Ready, [];
    }

    /** The switch falls through from each case to the next unless the call returns. */
    method ThreadProc(a: Answers)
      modifies this
      ensures View() == if old(IsThreadDone(state)) then old(View()) else Proc(old(View()), a)
    {
      var at := state;
      if at == Ready {
        calls := calls + [InitInstance(a.initOk)];
        if !a.initOk {
          state := Error;
          return;
        }
        state := DoneInitInstance;
        at := DoneInitInstance;
      }
      if at == DoneInitInstance {
        exit := exit || a.ended;
        if !exit {
          calls := calls + [Run(a.runOk)];
          if !a.runOk {
            state := Error;
          }
          return;
        }
        state := DoneRun;
        at := DoneRun;
      }
      if at == DoneRun || at == Error || at == Inactive {
        calls := calls + [ExitInstance];
        state := if state == DoneRun then DoneExitInstance else DoneExitInstanceError;
        at := DoneExitInstance;
      }
      if at == DoneExitInstance || at == DoneExitInstanceError {
        state := if state == DoneExitInstance then Done else DoneError;
      }
    }

    /** `RunThreadHere` and the thread entry point: `ThreadProc` until done, or until the
        answers run out. `rounds` is how often it was called. */
    method RunUntilDone(answers: seq<Answers>) returns (rounds: nat)
      modifies this
      ensures rounds <= |answers| && (rounds == |answers| || IsThreadDone(state))
      ensures RoundsNeeded(old(View()), answers[..rounds])
      ensures View() == Rounds(old(View()), answers[..rounds])
    {
      rounds := 0;
      while rounds < |answers| && !IsThreadDone(state)
        invariant rounds <= |answers|
        invariant RoundsNeeded(old(View()), answers[..rounds])
        invariant View() == Rounds(old(View()), answers[..rounds])
      {
        RoundsSnoc(old(View()), answers[..rounds], answers[rounds]);
        assert answers[..rounds] + [answers[rounds]] == answers[..rounds + 1];
        ThreadProc(answers[rounds]);
        rounds := rounds + 1;
      }
    }
  }

  // ----- Runs of the loop -----

  /** No round is spent on a thread that is done. */
  predicate RoundsNeeded(t: Thread, answers: seq<Answers>)
    decreases |answers|
  {
    answers == [] || (!IsThreadDone(t.state) && RoundsNeeded(Proc(t, answers[0]), answers[1..]))
  }

  function Rounds(t: Thread, answers: seq<Answers>): (r: Thread)
    requires RoundsNeeded(t, answers)
    decreases |answers|
  {
    if answers == [] then t else Rounds(Proc(t, answers[0]), answers[1..])
  }

  lemma {:induction false} RoundsSnoc(t: Thread, answers: seq<Answers>, a: Answers)
    requires RoundsNeeded(t, answers) && !IsThreadDone(Rounds(t, answers).state)
    ensures RoundsNeeded(t, answers + [a])
    ensures Rounds(t, answers + [a]) == Proc(Rounds(t, answers), a)
    decreases |answers|
  {
    if answers == [] {
      assert ([a])[1..] == [];
    } else {
      assert (answers + [a])[1..] == answers[1..] + [a];
      RoundsSnoc(Proc(t, answers[0]), answers[1..], a);
    }
  }

  function GoodRuns(k: nat): (calls: seq<Call>)
    ensures |calls| == k
  {
    seq(k, _ => Run(true))
  }

  /** The calls that lead to each state in which `ThreadProc` returns. */
  predicate LogFits(t: Thread) {
    var n := |t.calls|;
    match t.state
    case Ready => t.calls == []
    case DoneInitInstance => 1 <= n && t.calls == [InitInstance(true)] + GoodRuns(n - 1)
    case Error => t.calls == [InitInstance(false)]
                  || (2 <= n && t.calls == [InitInstance(true)] + GoodRuns(n - 2) + [Run(false)])
    case Done => 2 <= n && t.exit && t.calls == [InitInstance(true)] + GoodRuns(n - 2) + [ExitInstance]
    case DoneError => t.calls == [InitInstance(false), ExitInstance]
                      || (3 <= n && t.calls == [InitInstance(true)] + GoodRuns(n - 3) + [Run(false), ExitInstance])
    case _ => false
  }

  lemma ProcKeepsLog(t: Thread, a: Answers)
    requires LogFits(t) && !IsThreadDone(t.state)
    ensures LogFits(Proc(t, a))
  {
    var n := |t.calls|;
    if t.state == Ready {
      assert [InitInstance(true)] + GoodRuns(0) + [ExitInstance] == [InitInstance(true), ExitInstance];
      assert [InitInstance(true)] + GoodRuns(1) == [InitInstance(true), Run(true)];
      assert [InitInstance(true)] + GoodRuns(0) + [Run(false)] == [InitInstance(true), Run(false)];
    } else if t.state == DoneInitInstance {
      assert GoodRuns(n - 1) + [Run(true)] == GoodRuns(n);
      assert t.calls + [Run(true)] == [InitInstance(true)] + GoodRuns(n);
    } else if t.calls != [InitInstance(false)] {
      assert t.calls + [ExitInstance] == [InitInstance(true)] + GoodRuns(n - 2) + [Run(false), ExitInstance];
    }
  }

  /** How many calls of `ThreadProc` a log accounts for: one for every `Run`, one for a failed
      `InitInstance`, one for the `ExitInstance` at the end. */
  function RoundsOf(calls: seq<Call>): (n: nat) {
    if calls == [] then 0
    else RoundsOf(calls[..|calls| - 1])
         + if calls[|calls| - 1] == InitInstance(true) then 0 else 1
  }

  lemma ProcCountsRounds(t: Thread, a: Answers)
    requires LogFits(t) && !IsThreadDone(t.state)
    ensures RoundsOf(Proc(t, a).calls) == RoundsOf(t.calls) + 1
  {
    var calls := t.calls;
    if t.state == Ready && a.initOk {
      RoundsOfSnoc(calls, InitInstance(true));
      calls := calls + [InitInstance(true)];
    }
    RoundsOfSnoc(calls, Proc(t, a).calls[|calls|]);
  }

  /** Every run of the loop from `Ready`: the hooks were called in the only order allowed, and
      the number of rounds is exactly what the log accounts for. */
  lemma {:induction false} RunsFollowTheLifeCycle(t: Thread, answers: seq<Answers>)
    requires LogFits(t) && RoundsNeeded(t, answers)
    ensures LogFits(Rounds(t, answers))
    ensures RoundsOf(Rounds(t, answers).calls) == RoundsOf(t.calls) + |answers|
    decreases |answers|
  {
    if answers != [] {
      ProcKeepsLog(t, answers[0]);
      ProcCountsRounds(t, answers[0]);
      RunsFollowTheLifeCycle(Proc(t, answers[0]), answers[1..]);
    }
  }

  /** `RoundsOf` of a log whose calls before the last `ExitInstance` are known. */
  lemma {:induction false} RoundsOfRuns(k: nat)
    ensures RoundsOf([InitInstance(true)] + GoodRuns(k)) == k
  {
    var calls := [InitInstance(true)] + GoodRuns(k);
    if k == 0 {
      assert calls == [InitInstance(true)] && calls[..0] == [];
    } else {
      assert calls[..k] == [InitInstance(true)] + GoodRuns(k - 1);
      RoundsOfRuns(k - 1);
    }
  }

  /** The outcome of a finished run: `InitInstance` first and once, `ExitInstance` last and
      once, `Run` only in between; `Done` means that nothing failed and exit was requested;
      and there are one or two more rounds than calls of `Run`. */
  lemma FinishedRun(exit: bool, answers: seq<Answers>)
    requires var t := Thread(Ready, exit, []); RoundsNeeded(t, answers) && IsThreadDone(Rounds(t, answers).state)
    ensures var r := Rounds(Thread(Ready, exit, []), answers);
            var runs := if 2 <= |r.calls| then |r.calls| - 2 else 0;
            || (r.calls == [InitInstance(false), ExitInstance] && r.state == DoneError
                && |answers| == runs + 2)
            || (r.calls == [InitInstance(true)] + GoodRuns(runs) + [ExitInstance]
                && r.state == Done && r.exit && |answers| == runs + 1)
            || (0 < runs && r.calls == [InitInstance(true)] + GoodRuns(runs - 1) + [Run(false), ExitInstance]
                && r.state == DoneError && |answers| == runs + 1)
  {
    var t := Thread(Ready, exit, []);
    var r := Rounds(t, answers);
    RunsFollowTheLifeCycle(t, answers);
    var n := |r.calls|;
    if r.calls == [InitInstance(false), ExitInstance] {
      assert r.calls[..1] == [InitInstance(false)] && r.calls[..1][..0] == [];
    } else {
      RoundsOfFinished(n - 2);
      if 3 <= n {
        RoundsOfFinished(n - 3);
      }
    }
  }

  lemma RoundsOfFinished(k: nat)
    ensures RoundsOf([InitInstance(true)] + GoodRuns(k) + [ExitInstance]) == k + 1
    ensures RoundsOf([InitInstance(true)] + GoodRuns(k) + [Run(false), ExitInstance]) == k + 2
  {
    var calls := [InitInstance(true)] + GoodRuns(k);
    RoundsOfRuns(k);
    RoundsOfSnoc(calls, ExitInstance);
    RoundsOfSnoc(calls, Run(false));
    RoundsOfSnoc(calls + [Run(false)], ExitInstance);
    assert calls + [Run(false)] + [ExitInstance] == calls + [Run(false), ExitInstance];
  }

  lemma RoundsOfSnoc(calls: seq<Call>, c: Call)
    ensures RoundsOf(calls + [c]) == RoundsOf(calls) + if c == InitInstance(true) then 0 else 1
  {
    assert (calls + [c])[..|calls|] == calls;
  }

  /** Once exit is requested, two more rounds are enough whatever the hooks answer. */
  lemma ExitEndsTheLoop(t: Thread, a: Answers, b: Answers)
    requires LogFits(t) && !IsThreadDone(t.state) && t.exit
    ensures IsThreadDone(Proc(t, a).state) || IsThreadDone(Proc(Proc(t, a), b).state)
  {
    if t.state == Ready && !a.initOk {
      assert Proc(t, a).state == Error;
    }
  }
}
