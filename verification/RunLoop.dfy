/** base/run_loop.cc: loops nested in one another on one message loop, and what becomes of a
    call of Quit. */
module RunLoopSpec {

  // What a task of the message loop does with run loops, one call after the other.
  datatype Actions<L> =
    | Done
    | QuitLoop(loop: L, after: Actions<L>)
    | RunNested(loop: L, tasks: Tasks<L>, after: Actions<L>)

  // The tasks that a message pump gets to run; with none left it waits for ever.
  datatype Tasks<L> = NoTasks | Tasks(first: Actions<L>, rest: Tasks<L>)

  // A pump notes that it is to quit in a field of its own, which each run resets when it ends
  // (message_pump_default.cc), or in a record of the current run (message_pump_glib.cc).
  datatype Pump = SharedFlag | FlagPerRun

  datatype Event<L> = QuitCalled(loop: L) | TaskStarted(loop: L)

  /** The loops that are running, the innermost last; those Run and Quit were called on; and
      whether the innermost pump is to quit when its current task is over. */
  datatype State<!L> = State(stack: seq<L>, called: set<L>, quit: set<L>, pending: bool, history: seq<Event<L>>)

  ghost function Top<L>(s: State<L>): L
    requires s.stack != []
  {
    s.stack[|s.stack| - 1]
  }

  ghost function Quit<L>(s: State<L>, l: L): State<L> {
    var pending := s.pending || (s.stack != [] && Top(s) == l);
    s.(quit := s.quit + {l}, pending := pending, history := s.history + [QuitCalled(l)])
  }

  ghost predicate Extends<L>(r: (State<L>, bool), s: State<L>) {
    s.stack <= r.0.stack && (r.1 ==> r.0.stack == s.stack) && s.quit <= r.0.quit && s.called <= r.0.called
  }

  // RunLoop::Run: the state when it returns, or where it hangs, and whether it returns.
  ghost function Run<L>(s: State<L>, l: L, tasks: Tasks<L>, pump: Pump): (r: (State<L>, bool))
    ensures Extends(r, s)
    decreases tasks, 1
  {
    var called := s.(called := s.called + {l});
    if l in s.quit then (called, true)
    else
      var (left, done) := PumpTasks(Enter(s, l, pump), tasks, pump);
      if done then (Return(left, s.pending, pump), true) else (left, false)
  }

  // BeforeRun, and the start of the pump's run.
  ghost function Enter<L>(s: State<L>, l: L, pump: Pump): (entered: State<L>)
    ensures entered.stack != [] && Top(entered) == l
  {
    s.(called := s.called + {l}, stack := s.stack + [l], pending := pump.SharedFlag? && s.pending)
  }

  // The end of the pump's run, and AfterRun.
  ghost function Return<L>(left: State<L>, pendingBefore: bool, pump: Pump): (s: State<L>)
    requires left.stack != []
    ensures s.stack == left.stack[..|left.stack| - 1] && s.quit == left.quit && s.called == left.called
  {
    var popped := left.(stack := left.stack[..|left.stack| - 1], pending := pump.FlagPerRun? && pendingBefore);
    if popped.stack != [] && Top(popped) in left.quit then popped.(pending := true) else popped
  }

  ghost function PumpTasks<L>(s: State<L>, tasks: Tasks<L>, pump: Pump): (r: (State<L>, bool))
    requires s.stack != []
    ensures Extends(r, s)
    decreases tasks, 0
  {
    match tasks
    case NoTasks => (s, s.pending)  // with no work it looks at the flag, and then waits
    case Tasks(first, rest) =>
      var (after, done) := Perform(s.(history := s.history + [TaskStarted(Top(s))]), first, pump);
      if !done then (after, false)
      else if after.pending then (after, true)
      else PumpTasks(after, rest, pump)
  }

  // Tasks run no loop a second time.
  ghost function Perform<L>(s: State<L>, actions: Actions<L>, pump: Pump): (r: (State<L>, bool))
    ensures Extends(r, s)
    decreases actions, 0
  {
    match actions
    case Done => (s, true)
    case QuitLoop(l, after) => Perform(Quit(s, l), after, pump)
    case RunNested(l, tasks, after) =>
      if l in s.called then Perform(s, after, pump)
      else
        var (returned, done) := Run(s, l, tasks, pump);
        if done then Perform(returned, after, pump) else (returned, false)
  }

  // ----- no Quit is lost

  /** No loop gets another task once it has been told to quit. */
  ghost predicate QuitIsFinal<L(!new)>(history: seq<Event<L>>) {
    forall i, j :: 0 <= i < j < |history| && history[i].QuitCalled? ==> history[j] != TaskStarted(history[i].loop)
  }

  ghost predicate StackInv<L>(s: State<L>) {
    && (forall i :: 0 <= i < |s.stack| ==> s.stack[i] in s.called)
    && (forall i, j :: 0 <= i < j < |s.stack| ==> s.stack[i] != s.stack[j])
  }

  ghost predicate HistoryInv<L(!new)>(s: State<L>) {
    (forall l :: QuitCalled(l) in s.history <==> l in s.quit) && QuitIsFinal(s.history)
  }

  ghost predicate SomeQuit<L(!new)>(stack: seq<L>, quit: set<L>) {
    exists l :: l in stack && l in quit
  }

  /** If the innermost loop has been told to quit then its pump is to quit; and with a flag for
      each run only then. With the one flag some loop around it may be the reason. */
  ghost predicate FlagInv<L(!new)>(s: State<L>, pump: Pump) {
    if s.stack == [] then !s.pending
    else
      && (Top(s) in s.quit ==> s.pending)
      && (s.pending ==> if pump.FlagPerRun? then Top(s) in s.quit else SomeQuit(s.stack, s.quit))
  }

  ghost predicate Inv<L(!new)>(s: State<L>, pump: Pump) {
    StackInv(s) && FlagInv(s, pump) && HistoryInv(s)
  }

  lemma QuitKeepsInv<L(!new)>(s: State<L>, l: L, pump: Pump)
    requires Inv(s, pump)
    ensures Inv(Quit(s, l), pump)
  {
    var r := Quit(s, l);
    forall m ensures QuitCalled(m) in r.history <==> m in r.quit {
      assert QuitCalled(m) in r.history <==> QuitCalled(m) in s.history || m == l;
    }
    if s.stack != [] && Top(s) == l {
      assert l in r.stack && l in r.quit;
    } else if SomeQuit(s.stack, s.quit) {
      var m :| m in s.stack && m in s.quit;
      assert m in r.stack && m in r.quit;
    }
  }

  lemma EnterKeepsInv<L(!new)>(s: State<L>, l: L, pump: Pump)
    requires Inv(s, pump) && l !in s.called && l !in s.quit
    ensures Inv(Enter(s, l, pump), pump)
  {
    var entered := Enter(s, l, pump);
    hide QuitIsFinal;
    if entered.pending {
      var m :| m in s.stack && m in s.quit;
      assert m in entered.stack && m in entered.quit;
    }
  }

  /** A loop with its pump about to quit may return to the loop around it. */
  lemma ReturnKeepsInv<L(!new)>(left: State<L>, pendingBefore: bool, pump: Pump)
    requires Inv(left, pump) && left.stack != [] && left.pending
    requires pump.FlagPerRun? && pendingBefore ==> |left.stack| > 1 && left.stack[|left.stack| - 2] in left.quit
    ensures Inv(Return(left, pendingBefore, pump), pump)
  {
    hide QuitIsFinal;
    var returned := Return(left, pendingBefore, pump);
    if returned.stack != [] {
      assert Top(returned) == left.stack[|left.stack| - 2];
      assert Top(returned) in returned.stack;
    }
  }

  lemma TaskKeepsInv<L(!new)>(s: State<L>, pump: Pump)
    requires Inv(s, pump) && s.stack != [] && Top(s) !in s.quit
    ensures Inv(s.(history := s.history + [TaskStarted(Top(s))]), pump)
  {
    var h := s.history + [TaskStarted(Top(s))];
    forall l ensures QuitCalled(l) in h <==> l in s.quit {
      assert QuitCalled(l) in h <==> QuitCalled(l) in s.history;
    }
    forall i, j | 0 <= i < j < |h| && h[i].QuitCalled?
      ensures h[j] != TaskStarted(h[i].loop)
    {
      assert h[i] == s.history[i] && QuitCalled(h[i].loop) in s.history;
    }
  }

  /** Run keeps the invariant whatever the tasks do. A loop that Run returns from, other than
      at once, has been told to quit: with a flag for each run it has itself, and with the one
      flag it or a loop around it. */
  lemma {:induction false} RunKeepsInv<L(!new)>(s: State<L>, l: L, tasks: Tasks<L>, pump: Pump)
    requires Inv(s, pump) && l !in s.called
    ensures Inv(Run(s, l, tasks, pump).0, pump)
    ensures Run(s, l, tasks, pump).1 ==>
              || l in Run(s, l, tasks, pump).0.quit
              || (pump.SharedFlag? && SomeQuit(s.stack, Run(s, l, tasks, pump).0.quit))
    decreases tasks, 1
  {
    if l in s.quit {
      assert Inv(s.(called := s.called + {l}), pump) by { hide QuitIsFinal, SomeQuit; }
    } else {
      var entered := Enter(s, l, pump);
      EnterKeepsInv(s, l, pump);
      PumpKeepsInv(entered, tasks, pump);
      var (left, done) := PumpTasks(entered, tasks, pump);
      if done {
        assert left.stack == s.stack + [l];
        assert s.stack != [] ==> left.stack[|left.stack| - 2] == Top(s);
        ReturnKeepsInv(left, s.pending, pump);
        if l !in left.quit {
          var m :| m in left.stack && m in left.quit;
          assert m in s.stack;
        }
      }
      hide Inv;
    }
  }

  lemma {:induction false} PumpKeepsInv<L(!new)>(s: State<L>, tasks: Tasks<L>, pump: Pump)
    requires Inv(s, pump) && s.stack != [] && Top(s) !in s.quit
    ensures Inv(PumpTasks(s, tasks, pump).0, pump)
    ensures PumpTasks(s, tasks, pump).1 ==> PumpTasks(s, tasks, pump).0.pending
    decreases tasks, 0
  {
    hide StackInv, HistoryInv, SomeQuit;
    match tasks {
      case NoTasks =>
      case Tasks(first, rest) =>
        var started := s.(history := s.history + [TaskStarted(Top(s))]);
        TaskKeepsInv(s, pump);
        PerformKeepsInv(started, first, pump);
        var (after, done) := Perform(started, first, pump);
        if done && !after.pending {
          PumpKeepsInv(after, rest, pump);
        }
    }
  }

  lemma {:induction false} PerformKeepsInv<L(!new)>(s: State<L>, actions: Actions<L>, pump: Pump)
    requires Inv(s, pump)
    ensures Inv(Perform(s, actions, pump).0, pump)
    decreases actions, 0
  {
    hide Inv;
    match actions {
      case Done =>
      case QuitLoop(l, after) =>
        QuitKeepsInv(s, l, pump);
        PerformKeepsInv(Quit(s, l), after, pump);
      case RunNested(l, tasks, after) =>
        if l in s.called {
          PerformKeepsInv(s, after, pump);
        } else {
          RunKeepsInv(s, l, tasks, pump);
          var (returned, done) := Run(s, l, tasks, pump);
          if done {
            PerformKeepsInv(returned, after, pump);
          }
        }
    }
  }

  // ----- when quitting one loop has no bearing on another

  /** If the pump is to quit, that is because the innermost loop was told to. */
  ghost predicate OwnReason<L(!new)>(s: State<L>) {
    s.stack != [] && s.pending ==> Top(s) in s.quit
  }

  /** With one flag, exactly if it is clear when Run is called, as the pump's DCHECK asks, the
      loop returns only if it was told to quit itself, whatever its tasks do. With a flag for
      each run it always does. */
  lemma NoBearingOnOthers<L(!new)>(s: State<L>, l: L, pump: Pump)
    requires Inv(s, pump) && l !in s.called && l !in s.quit
    ensures (forall tasks: Tasks<L> :: Run(s, l, tasks, pump).1 ==> l in Run(s, l, tasks, pump).0.quit)
            <==> pump.FlagPerRun? || !s.pending
  {
    if pump.FlagPerRun? {
      forall tasks: Tasks<L>
        ensures Run(s, l, tasks, pump).1 ==> l in Run(s, l, tasks, pump).0.quit
      {
        RunKeepsInv(s, l, tasks, pump);
      }
    } else if !s.pending {
      forall tasks: Tasks<L>
        ensures Run(s, l, tasks, pump).1 ==> l in Run(s, l, tasks, pump).0.quit
      {
        PumpHasOwnReason(Enter(s, l, pump), tasks);
      }
    } else {
      EndsForAnother(s, l, NoTasks);
      assert Run(s, l, NoTasks, pump).1;
    }
  }

  /** With the flag set it returns after its first task, which tells nobody to quit, or if
      there is none at once. */
  lemma EndsForAnother<L(!new)>(s: State<L>, l: L, rest: Tasks<L>)
    requires s.pending && l !in s.quit
    ensures Run(s, l, NoTasks, SharedFlag).1 && Run(s, l, NoTasks, SharedFlag).0.quit == s.quit
    ensures Run(s, l, Tasks(Done, rest), SharedFlag).1 && Run(s, l, Tasks(Done, rest), SharedFlag).0.quit == s.quit
  {
    var entered := Enter(s, l, SharedFlag);
    var started := entered.(history := entered.history + [TaskStarted(Top(entered))]);
    assert Perform(started, Done, SharedFlag) == (started, true);
    assert PumpTasks(entered, Tasks(Done, rest), SharedFlag) == (started, true);
  }

  lemma {:induction false} PumpHasOwnReason<L(!new)>(s: State<L>, tasks: Tasks<L>)
    requires s.stack != [] && OwnReason(s)
    ensures var (t, done) := PumpTasks(s, tasks, SharedFlag); done ==> OwnReason(t) && t.pending
    decreases tasks, 0
  {
    match tasks {
      case NoTasks =>
      case Tasks(first, rest) =>
        var started := s.(history := s.history + [TaskStarted(Top(s))]);
        PerformHasOwnReason(started, first);
        var (after, done) := Perform(started, first, SharedFlag);
        if done && !after.pending {
          PumpHasOwnReason(after, rest);
        }
    }
  }

  lemma {:induction false} PerformHasOwnReason<L(!new)>(s: State<L>, actions: Actions<L>)
    requires OwnReason(s)
    ensures var (t, done) := Perform(s, actions, SharedFlag); done ==> OwnReason(t)
    decreases actions, 0
  {
    match actions {
      case Done =>
      case QuitLoop(l, after) => PerformHasOwnReason(Quit(s, l), after);
      case RunNested(l, tasks, after) =>
        if l in s.called {
          PerformHasOwnReason(s, after);
        } else {
          var (returned, done) := Run(s, l, tasks, SharedFlag);
          if done {
            PerformHasOwnReason(returned, after);
          }
        }
    }
  }

  // The first task of loop 1 quits loop 1 and then runs loop 2, for which there are two tasks.

  const INITIAL: State<int> := State([], {}, {}, false, [])
  const NESTED: Tasks<int> := Tasks(Done, Tasks(Done, NoTasks))
  const OUTER: Tasks<int> := Tasks(QuitLoop(1, RunNested(2, NESTED, Done)), NoTasks)
  const QUIT_SO_FAR: State<int> := State([1], {1}, {1}, true, [TaskStarted(1), QuitCalled(1)])
  const FIRST_NESTED := [TaskStarted(1), QuitCalled(1), TaskStarted(2)]

  /** With the one flag, quitting one loop does end another: loop 2 returns after the first of
      its tasks although nobody told it to quit. */
  lemma OneFlagEndsNestedLoop()
    ensures Run(INITIAL, 1, OUTER, SharedFlag) == (State([], {1, 2}, {1}, false, FIRST_NESTED), true)
  {
    OuterTask(SharedFlag);
    NestedWithOneFlag();
    hide Perform, PumpTasks, Enter;
    var after := State([1], {1, 2}, {1}, true, FIRST_NESTED);
    assert Return(after, false, SharedFlag) == State([], {1, 2}, {1}, false, FIRST_NESTED);
  }

  /** With a flag for each run it gets both tasks, and waits for more. */
  lemma OwnFlagLetsNestedLoopRun()
    ensures Run(INITIAL, 1, OUTER, FlagPerRun)
         == (State([1, 2], {1, 2}, {1}, false, FIRST_NESTED + [TaskStarted(2)]), false)
  {
    OuterTask(FlagPerRun);
    NestedWithItsOwnFlag();
    hide Perform, PumpTasks, Enter;
  }

  lemma OuterTask(pump: Pump)
    ensures var (after, done) := Run(QUIT_SO_FAR, 2, NESTED, pump);
            Run(INITIAL, 1, OUTER, pump)
            == if done && after.pending then (Return(after, false, pump), true) else (after, false)
  {
    var entered := State([1], {1}, {}, false, []);
    var started := entered.(history := [TaskStarted(1)]);
    var (after, done) := Run(QUIT_SO_FAR, 2, NESTED, pump);
    hide Run;
    assert Enter(INITIAL, 1, pump) == entered;
    assert entered.history + [TaskStarted(1)] == started.history;
    assert Quit(started, 1) == QUIT_SO_FAR by {
      assert started.quit + {1} == {1} && started.history + [QuitCalled(1)] == QUIT_SO_FAR.history;
    }
    assert Perform(QUIT_SO_FAR, RunNested(2, NESTED, Done), pump) == (after, done);
    assert Perform(started, OUTER.first, pump) == (after, done);
    assert PumpTasks(entered, OUTER, pump) == if done && after.pending then (after, true) else (after, false);
    RunFromInitial(entered, pump);
  }

  lemma RunFromInitial(entered: State<int>, pump: Pump)
    requires entered == Enter(INITIAL, 1, pump)
    ensures var (left, done) := PumpTasks(entered, OUTER, pump);
            Run(INITIAL, 1, OUTER, pump) == if done then (Return(left, false, pump), true) else (left, false)
  {
    hide PumpTasks, Return;
  }

  lemma NestedWithOneFlag()
    ensures Run(QUIT_SO_FAR, 2, NESTED, SharedFlag) == (State([1], {1, 2}, {1}, true, FIRST_NESTED), true)
  {
    var entered := State([1, 2], {1, 2}, {1}, true, QUIT_SO_FAR.history);
    assert Enter(QUIT_SO_FAR, 2, SharedFlag) == entered by {
      assert {1} + {2} == {1, 2} && [1] + [2] == [1, 2];
    }
    var once := entered.(history := FIRST_NESTED);
    assert entered.history + [TaskStarted(2)] == FIRST_NESTED;
    assert Perform(once, Done, SharedFlag) == (once, true);
    assert PumpTasks(entered, NESTED, SharedFlag) == (once, true);
    hide PumpTasks, Enter;
    assert once.stack[..1] == [1];
  }

  lemma NestedWithItsOwnFlag()
    ensures Run(QUIT_SO_FAR, 2, NESTED, FlagPerRun)
         == (State([1, 2], {1, 2}, {1}, false, FIRST_NESTED + [TaskStarted(2)]), false)
  {
    var entered := State([1, 2], {1, 2}, {1}, false, QUIT_SO_FAR.history);
    assert Enter(QUIT_SO_FAR, 2, FlagPerRun) == entered by {
      assert {1} + {2} == {1, 2} && [1] + [2] == [1, 2];
    }
    var once := entered.(history := FIRST_NESTED);
    var twice := once.(history := FIRST_NESTED + [TaskStarted(2)]);
    assert entered.history + [TaskStarted(2)] == FIRST_NESTED;
    assert Perform(once, Done, FlagPerRun) == (once, true) && Perform(twice, Done, FlagPerRun) == (twice, true);
    assert PumpTasks(twice, NoTasks, FlagPerRun) == (twice, false);
    assert PumpTasks(once, NESTED.rest, FlagPerRun) == (twice, false);
    assert PumpTasks(entered, NESTED, FlagPerRun) == (twice, false);
    hide PumpTasks, Enter, Return;
  }
}

module RunLoops {
  import opened RunLoopSpec

  ghost function Members(stack: seq<RunLoop>): set<RunLoop> {
    set l | l in stack
  }

  lemma PushMember(stack: seq<RunLoop>, l: RunLoop)
    ensures Members(stack + [l]) == Members(stack) + {l}
  {
  }

  lemma PopMember(stack: seq<RunLoop>, n: nat)
    requires n + 1 == |stack| && forall i :: 0 <= i < n ==> stack[i] != stack[n]
    ensures Members(stack[..n]) == Members(stack) - {stack[n]}
  {
  }

  class MessageLoop {
    var runLoop: RunLoop?
    var pendingQuit: bool
    const pump: Pump
    ghost var stack: seq<RunLoop>
    ghost var loops: set<RunLoop>  // all that were made for this message loop
    ghost var history: seq<Event<RunLoop>>

    constructor (pump: Pump)
      ensures Valid() && loops == {} && this.pump == pump && View() == State([], {}, {}, false, [])
    {
      this.pump := pump;
      runLoop := null;
      pendingQuit := false;
      stack := [];
      loops := {};
      history := [];
    }

    ghost function View(): State<RunLoop>
      reads this, loops
    {
      State(stack, Called(), Told(), pendingQuit, history)
    }

    ghost function Called(): set<RunLoop>
      reads this, loops
    {
      set l | l in loops && l.runCalled
    }

    ghost function Told(): set<RunLoop>
      reads this, loops
    {
      set l | l in loops && l.quitCalled
    }

    ghost function Running(): set<RunLoop>
      reads this, loops
    {
      set l | l in loops && l.running
    }

    /** The chain that starts at runLoop goes through the loops on the stack, the innermost
        first; they have the depths n to 1 and are the ones that are running. */
    ghost predicate Valid()
      reads this, loops
    {
      && (forall l :: l in loops ==> l.loop == this)
      && (forall i :: 0 <= i < |stack| ==>
           stack[i] in loops && stack[i].runDepth == i + 1 && stack[i].runCalled)
      && (stack != [] ==> stack[0].previousRunLoop == null)
      && (forall i, j :: 0 <= i < |stack| && j == i + 1 < |stack| ==> stack[j].previousRunLoop == stack[i])
      && Running() == Members(stack)
      && runLoop == if stack == [] then null else stack[|stack| - 1]
    }

    method QuitNow()
      requires Valid() && runLoop != null
      modifies this`pendingQuit
      ensures Valid() && View() == old(View()).(pending := true)
    {
      pendingQuit := true;
    }

    lemma Fields()
      requires Valid()
      ensures View().stack == stack && View().pending == pendingQuit
      ensures if stack == [] then runLoop == null else runLoop == Top(View())
    {
    }

    ghost method StartTask()
      requires Valid() && runLoop != null
      modifies this`history
      ensures Valid() && stack != []
      ensures View() == old(View()).(history := old(View()).history + [TaskStarted(Top(old(View())))])
    {
      history := history + [TaskStarted(stack[|stack| - 1])];
    }

    method SetPendingQuit(pending: bool)
      requires Valid()
      modifies this`pendingQuit
      ensures Valid() && View() == old(View()).(pending := pending)
    {
      pendingQuit := pending;
    }

    // RunHandler and the pump's Run.
    method RunHandler(tasks: Tasks<RunLoop>) returns (done: bool)
      requires Valid() && runLoop != null && LoopsOfTasks(tasks) <= loops
      modifies this, loops
      ensures Valid() && loops == old(loops) && (done ==> runLoop == old(runLoop))
      ensures old(View()).stack != []
      ensures var entered := old(View()).(pending := pump.SharedFlag? && old(pendingQuit));
              var (left, ends) := PumpTasks(entered, tasks, pump);
              && done == ends
              && View() == if done then left.(pending := pump.FlagPerRun? && old(pendingQuit)) else left
      decreases tasks, 0
    {
      hide Valid, View, RunLoopSpec.Perform;
      Fields();
      var saved := pendingQuit;
      if pump.FlagPerRun? {
        SetPendingQuit(false);
      }
      ghost var entered := View();
      assert entered == old(View()).(pending := pump.SharedFlag? && old(pendingQuit));
      var left := tasks;
      done := false;
      while left.Tasks? && !done
        invariant Valid() && loops == old(loops) && View().stack == entered.stack
        invariant LoopsOfTasks(left) <= loops && (left == tasks || left < tasks)
        invariant PumpTasks(entered, tasks, pump) == if done then (View(), true) else PumpTasks(View(), left, pump)
        decreases left, !done
      {
        Fields();
        StartTask();
        var over := Perform(left.first);
        Fields();
        if !over {
          return false;
        }
        done := pendingQuit;
        if !done {
          left := left.rest;
        }
      }
      if !done {
        Fields();
        done := pendingQuit;
      }
      if done {
        SetPendingQuit(pump.FlagPerRun? && saved);
        Fields();
      }
    }

    method Perform(actions: Actions<RunLoop>) returns (done: bool)
      requires Valid() && LoopsOfActions(actions) <= loops
      modifies this, loops
      ensures Valid() && loops == old(loops)
      ensures (View(), done) == RunLoopSpec.Perform(old(View()), actions, pump)
      decreases actions, 0
    {
      match actions
      case Done => return true;
      case QuitLoop(l, after) =>
        l.Quit();
        done := Perform(after);
      case RunNested(l, tasks, after) =>
        if !l.runCalled {
          done := l.Run(tasks);
          if !done {
            return false;
          }
        }
        done := Perform(after);
    }
  }

  class RunLoop {
    const loop: MessageLoop
    var previousRunLoop: RunLoop?
    var runDepth: nat
    var runCalled: bool
    var quitCalled: bool
    var running: bool

    constructor (loop: MessageLoop)
      requires loop.Valid()
      modifies loop`loops
      ensures this.loop == loop && loop.Valid() && loop.loops == old(loop.loops) + {this}
      ensures loop.View() == old(loop.View())
    {
      this.loop := loop;
      previousRunLoop := null;
      runDepth := 0;
      runCalled := false;
      quitCalled := false;
      running := false;
      new;
      loop.loops := loop.loops + {this};
    }

    method Quit()
      requires loop.Valid() && this in loop.loops
      modifies this`quitCalled, loop
      ensures loop.Valid() && loop.loops == old(loop.loops)
      ensures loop.View() == RunLoopSpec.Quit(old(loop.View()), this)
    {
      assert loop.runLoop == this ==> this in Members(loop.stack);
      assert running && loop.runLoop == this <==> loop.stack != [] && Top(loop.View()) == this;
      hide Members;
      quitCalled := true;
      loop.history := loop.history + [QuitCalled(this)];
      assert loop.Told() == old(loop.Told()) + {this} && loop.Called() == old(loop.Called());
      assert loop.Valid();
      if running && loop.runLoop == this {
        loop.QuitNow();
      }
    }

    method BeforeRun() returns (enter: bool)
      requires loop.Valid() && this in loop.loops && !runCalled
      modifies this, loop
      ensures loop.Valid() && loop.loops == old(loop.loops) && (enter <==> this !in old(loop.View()).quit)
      ensures var called := old(loop.View()).(called := old(loop.View()).called + {this});
              loop.View() == if enter then called.(stack := called.stack + [this]) else called
      ensures enter ==> loop.runLoop == this
    {
      hide Members;
      ghost var before := loop.stack;
      runCalled := true;
      assert loop.Called() == old(loop.Called()) + {this} && loop.Told() == old(loop.Told());
      assert loop.Running() == old(loop.Running());
      if quitCalled {
        return false;
      }
      previousRunLoop := loop.runLoop;
      runDepth := if previousRunLoop != null then previousRunLoop.runDepth + 1 else 1;
      loop.runLoop := this;
      running := true;
      loop.stack := before + [this];
      PushMember(before, this);
      assert loop.Called() == old(loop.Called()) + {this} && loop.Told() == old(loop.Told());
      assert loop.Running() == old(loop.Running()) + {this};
      return true;
    }

    method AfterRun()
      requires loop.Valid() && this in loop.loops && loop.runLoop == this
      modifies this, loop
      ensures loop.Valid() && loop.loops == old(loop.loops)
      ensures loop.View() == Return(old(loop.View()), old(loop.pendingQuit), FlagPerRun)
    {
      hide Members;
      ghost var before, n := loop.stack, |loop.stack| - 1;
      assert before[n] == this && (n > 0 ==> before[n - 1] == previousRunLoop);
      PopMember(before, n);
      running := false;
      loop.runLoop := previousRunLoop;
      loop.stack := before[..n];
      assert loop.Called() == old(loop.Called()) && loop.Told() == old(loop.Told());
      assert loop.Running() == old(loop.Running()) - {this};
      assert loop.Valid();
      if previousRunLoop != null && previousRunLoop.quitCalled {
        loop.QuitNow();
      }
    }

    /** Run, with the tasks there are for it. If it does not return, the state is the one it
        hangs in. */
    method Run(tasks: Tasks<RunLoop>) returns (done: bool)
      requires loop.Valid() && this in loop.loops && !runCalled && LoopsOfTasks(tasks) <= loop.loops
      modifies loop, loop.loops
      ensures loop.Valid() && loop.loops == old(loop.loops)
      ensures (loop.View(), done) == RunLoopSpec.Run(old(loop.View()), this, tasks, loop.pump)
      decreases tasks, 1
    {
      hide MessageLoop.Valid, MessageLoop.View, PumpTasks, Perform, LoopsOfTasks, Extends;
      loop.Fields();
      var enter := BeforeRun();
      if !enter {
        return true;
      }
      loop.Fields();
      done := loop.RunHandler(tasks);
      if done {
        loop.Fields();
        AfterRun();
      }
    }
  }

  ghost function LoopsOfTasks(tasks: Tasks<RunLoop>): set<RunLoop> {
    match tasks
    case NoTasks => {}
    case Tasks(first, rest) => LoopsOfActions(first) + LoopsOfTasks(rest)
  }

  ghost function LoopsOfActions(actions: Actions<RunLoop>): set<RunLoop> {
    match actions
    case Done => {}
    case QuitLoop(l, after) => {l} + LoopsOfActions(after)
    case RunNested(l, tasks, after) => {l} + LoopsOfTasks(tasks) + LoopsOfActions(after)
  }
}
