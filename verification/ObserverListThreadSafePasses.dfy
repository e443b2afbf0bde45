/** What a delivery of base/observer_list_threadsafe.h calls: each context, seen alone, is a run
    of additions, removals and passes over one observer list, and what Notify posts is
    delivered to the observers that were added and not removed. */
module ObserverListThreadSafePasses {
  import opened ObserverListSpec
  import opened ObserverListThreadSafe
  import opened Options
  import P = ObserverPasses
  import Positions

  // ----- one context, seen alone

  // The deliveries on a context, by their places on the stack.
  ghost function Passes(stack: seq<Frame>, a: Address): map<nat, P.Pass> {
    map k: nat | k < |stack| && stack[k].context == a :: stack[k].pass
  }

  ghost function View(s: State, a: Address): P.Sys
    requires a in s.contexts
  {
    var c := s.contexts[a];
    P.Sys(c.list.observers, c.list.existingOnly, Passes(s.StackOf(c.owner), a), true)
  }

  lemma PushPass(stack: seq<Frame>, f: Frame, a: Address)
    ensures Passes(stack + [f], a)
         == if f.context == a then Passes(stack, a)[|stack| := f.pass] else Passes(stack, a)
  {
  }

  lemma Places(stack: seq<Frame>, a: Address, k: nat)
    ensures k in Passes(stack, a) <==> k < |stack| && stack[k].context == a
    ensures k in Passes(stack, a) ==> Passes(stack, a)[k] == stack[k].pass && |Passes(stack, a)| > 0
  {
    if k in Passes(stack, a) {
      assert |Passes(stack, a)| == |Passes(stack, a).Keys|;
    }
  }

  lemma PopPass(stack: seq<Frame>, a: Address)
    requires stack != []
    ensures var n := |stack| - 1;
      Passes(stack[..n], a) == if stack[n].context == a then Passes(stack, a) - {n} else Passes(stack, a)
  {
  }

  lemma {:induction false} CountPasses(stack: seq<Frame>, a: Address)
    ensures |Passes(stack, a)| == CountFrames(stack, a)
  {
    if stack == [] {
    } else {
      var n := |stack| - 1;
      CountPasses(stack[..n], a);
      PopPass(stack, a);
      assert stack[n].context == a ==> n in Passes(stack, a);
      hide Passes;
    }
  }

  lemma ViewIsList(s: State, a: Address)
    requires Inv(s) && a in s.contexts
    ensures View(s, a).AsList() == s.contexts[a].list
  {
    var t := s.contexts[a].owner;
    assert Own(s, t);
    assert Sound(s.contexts[a].list, a, s.Linked(t, a), s.PcOf(t), s.StackOf(t));
    CountPasses(s.StackOf(t), a);
  }

  // What a step is for one context, if anything.
  ghost function EventOn(s: State, e: ObserverListThreadSafe.Event, a: Address): Option<P.Event> {
    match e
    case AddEnd(t) => if s.PcOf(t).Adding? && s.PcOf(t).context == a then Some(P.EAdd(s.PcOf(t).o)) else None
    case RemoveEnd(t) => if s.PcOf(t).Removing? && s.PcOf(t).context == a then Some(P.ERemove(s.PcOf(t).o)) else None
    case DeliverBegin(task) =>
      if task.context == a && s.Linked(task.thread, a) then Some(P.EBegin(|s.StackOf(task.thread)|)) else None
    case DeliverNext(t) => if TopIs(s, t, a) then Some(P.ENext(|s.StackOf(t)| - 1)) else None
    case DeliverEnd(t) => if TopIs(s, t, a) then Some(P.EEnd(|s.StackOf(t)| - 1)) else None
    case _ => None
  }

  predicate TopIs(s: State, t: Thread, a: Address) {
    s.StackOf(t) != [] && Top(s.StackOf(t)).context == a
  }

  ghost function StepOn(v: P.Sys, e: Option<P.Event>): P.Sys {
    if e.None? then v else P.Step(v, e.value)
  }

  // The context that the thread is at, and the list in it, are there.
  lemma AtContext(s: State, t: Thread)
    requires Inv(s)
    ensures !s.PcOf(t).Idle? ==> s.PcOf(t).context in s.contexts && s.contexts[s.PcOf(t).context].owner == t
    ensures forall k :: 0 <= k < |s.StackOf(t)| ==>
      s.StackOf(t)[k].context in s.contexts && s.contexts[s.StackOf(t)[k].context].owner == t
    ensures t in s.table ==> s.table[t] in s.contexts && s.contexts[s.table[t]].owner == t
  {
    assert Own(s, t);
  }

  lemma SameKind(list: List, o: nat)
    ensures Add(list, o).existingOnly == Remove(list, o).existingOnly == list.existingOnly
    ensures Begin(list).0.existingOnly == list.existingOnly
    ensures list.depth > 0 ==> End(list).existingOnly == list.existingOnly
    ensures Begin(list).0.observers == list.observers
  {
  }

  lemma AddEndOn(s: State, t: Thread, a: Address)
    requires Inv(s) && s.PcOf(t).Adding? && a in s.contexts
    ensures var post := Apply(s, AddEnd(t));
      a in post.contexts && View(post, a) == StepOn(View(s, a), EventOn(s, AddEnd(t), a))
  {
    hide Inv, Passes, Add, WellFormed, CountFrames;
    AtContext(s, t);
    SameKind(s.contexts[a].list, s.PcOf(t).o);
    ViewIsList(s, a);
  }

  lemma RemoveEndOn(s: State, t: Thread, a: Address)
    requires Inv(s) && s.PcOf(t).Removing? && a in s.contexts && a in Apply(s, RemoveEnd(t)).contexts
    ensures View(Apply(s, RemoveEnd(t)), a) == StepOn(View(s, a), EventOn(s, RemoveEnd(t), a))
  {
    hide Inv, Passes, Remove, WellFormed, Sound, CountFrames;
    AtContext(s, t);
    SameKind(s.contexts[a].list, s.PcOf(t).o);
    ViewIsList(s, a);
    RemovingFacts(s, t);
  }

  lemma DeliverBeginOn(s: State, task: Task, a: Address)
    requires Inv(s) && Enabled(s, DeliverBegin(task)) && a in s.contexts
    ensures var post := Apply(s, DeliverBegin(task));
      a in post.contexts && View(post, a) == StepOn(View(s, a), EventOn(s, DeliverBegin(task), a))
  {
    hide Inv, Passes, Begin, P.Step;
    if s.Linked(task.thread, task.context) {
      Pushed(s, task, a);
      PushedIs(s, task, a);
    }
    hide WithList, ListOf, CountFrames;
  }

  // What the state is like after a delivery has begun.
  lemma Pushed(s: State, task: Task, a: Address)
    requires Inv(s) && Enabled(s, DeliverBegin(task)) && a in s.contexts && s.Linked(task.thread, task.context)
    ensures var post, t, b := Apply(s, DeliverBegin(task)), task.thread, task.context;
      && b in s.contexts && s.contexts[b].owner == t && post.contexts.Keys == s.contexts.Keys
      && post.contexts[a] == (if a == b then Context(t, Begin(s.contexts[b].list).0) else s.contexts[a])
      && (forall u :: u != t ==> post.StackOf(u) == s.StackOf(u))
      && var list := s.contexts[b].list;
         post.StackOf(t)
         == s.StackOf(t) + [Frame(b, P.Pass(Begin(list).1, |Begin(list).0.observers|, [], [], {}))]
  {
    hide Inv, Begin, CountFrames;
    AtContext(s, task.thread);
  }

  lemma PushedIs(s: State, task: Task, a: Address)
    requires Inv(s) && Enabled(s, DeliverBegin(task)) && a in s.contexts && s.Linked(task.thread, task.context)
    requires task.context in s.contexts && s.contexts[task.context].owner == task.thread
    ensures var stack, b := s.StackOf(task.thread), task.context;
      var list := s.contexts[b].list;
      var f := Frame(b, P.Pass(Begin(list).1, |Begin(list).0.observers|, [], [], {}));
      var pass := P.EBegin(|stack|);
      && Begin(list).0.observers == list.observers && Begin(list).0.existingOnly == list.existingOnly
      && Passes(stack + [f], a) == (if b == a then Passes(stack, a)[|stack| := f.pass] else Passes(stack, a))
      && (b == a ==> P.Step(View(s, a), pass)
                     == View(s, a).(passes := Passes(stack, a)[|stack| := f.pass]))
  {
    hide Inv, Passes, Begin;
    var stack, list := s.StackOf(task.thread), s.contexts[task.context].list;
    SameKind(list, 0);
    PushPass(stack, Frame(task.context, P.Pass(Begin(list).1, |Begin(list).0.observers|, [], [], {})), a);
    Places(stack, a, |stack|);
    ViewIsList(s, a);
  }

  lemma DeliverNextOn(s: State, t: Thread, a: Address)
    requires Inv(s) && Enabled(s, DeliverNext(t)) && a in s.contexts
    ensures var post := Apply(s, DeliverNext(t));
      a in post.contexts && View(post, a) == StepOn(View(s, a), EventOn(s, DeliverNext(t), a))
  {
    hide Inv, Passes, WellFormed, P.Advanced, CountFrames;
    AtContext(s, t);
    ViewIsList(s, a);
    var stack := s.StackOf(t);
    var n := |stack| - 1;
    var f := Top(Apply(s, DeliverNext(t)).StackOf(t));
    PushPass(stack[..n], f, a);
    PushPass(stack[..n], stack[n], a);
    assert stack == stack[..n] + [stack[n]];
  }

  lemma DeliverEndOn(s: State, t: Thread, a: Address)
    requires Inv(s) && Enabled(s, DeliverEnd(t)) && a in s.contexts
    ensures var post := Apply(s, DeliverEnd(t));
      a in post.contexts && View(post, a) == StepOn(View(s, a), EventOn(s, DeliverEnd(t), a))
  {
    hide Inv, Passes, End, P.Step;
    Popped(s, t, a);
    PoppedIs(s, t, a);
    hide WithList, ListOf, CountFrames, Apply;
  }

  // What the state is like after a delivery has ended.
  lemma Popped(s: State, t: Thread, a: Address)
    requires Inv(s) && Enabled(s, DeliverEnd(t)) && a in s.contexts
    ensures var post, stack := Apply(s, DeliverEnd(t)), s.StackOf(t);
      var b := Top(stack).context;
      && b in s.contexts && s.contexts[b].owner == t && s.contexts[b].list.depth > 0
      && post.contexts.Keys == s.contexts.Keys
      && post.contexts[a] == (if a == b then Context(t, End(s.contexts[b].list)) else s.contexts[a])
      && (forall u :: u != t ==> post.StackOf(u) == s.StackOf(u))
      && post.StackOf(t) == stack[..|stack| - 1]
  {
    hide Inv, End, CountFrames, Passes;
    AtContext(s, t);
    var b := Top(s.StackOf(t)).context;
    Places(s.StackOf(t), b, |s.StackOf(t)| - 1);
    ViewIsList(s, b);
  }

  lemma PoppedIs(s: State, t: Thread, a: Address)
    requires Inv(s) && a in s.contexts && s.StackOf(t) != []
    requires var b := Top(s.StackOf(t)).context;
      b in s.contexts && s.contexts[b].owner == t && s.contexts[b].list.depth > 0
    ensures var stack := s.StackOf(t);
      var b, n := Top(stack).context, |stack| - 1;
      && End(s.contexts[b].list).existingOnly == s.contexts[b].list.existingOnly
      && Passes(stack[..n], a) == (if b == a then Passes(stack, a) - {n} else Passes(stack, a))
      && (b == a ==> P.Step(View(s, a), P.EEnd(n))
                     == View(s, a).(passes := Passes(stack, a) - {n}, slots := End(s.contexts[a].list).observers))
  {
    hide Inv, Passes, End;
    var stack := s.StackOf(t);
    PopPass(stack, a);
    Places(stack, a, |stack| - 1);
    ViewIsList(s, a);
    SameKind(s.contexts[Top(stack).context].list, 0);
  }

  /** Each step of any thread is, for a context that stays, one event on its list or none. */
  lemma StepOnContext(s: State, e: ObserverListThreadSafe.Event, a: Address)
    requires Inv(s) && Enabled(s, e) && a in s.contexts && a in Apply(s, e).contexts
    ensures View(Apply(s, e), a) == StepOn(View(s, a), EventOn(s, e, a))
  {
    hide Inv, View, StepOn, EventOn;
    match e
    case AddEnd(t) => AddEndOn(s, t, a);
    case RemoveEnd(t) => RemoveEndOn(s, t, a);
    case DeliverBegin(task) => DeliverBeginOn(s, task, a);
    case DeliverNext(t) => DeliverNextOn(s, t, a);
    case DeliverEnd(t) => DeliverEndOn(s, t, a);
    case _ => QuietOn(s, e, a);
  }

  lemma QuietOn(s: State, e: ObserverListThreadSafe.Event, a: Address)
    requires Inv(s) && Enabled(s, e) && a in s.contexts && a in Apply(s, e).contexts
    requires !e.AddEnd? && !e.RemoveEnd? && !e.DeliverBegin? && !e.DeliverNext? && !e.DeliverEnd?
    ensures View(Apply(s, e), a) == StepOn(View(s, a), EventOn(s, e, a))
  {
    hide Inv, Passes;
    if e.AddBegin? || e.RemoveBegin? {
      BeginLeavesLists(s, e, a);
    } else {
      RestLeavesLists(s, e, a);
    }
    hide Apply;
  }

  lemma BeginLeavesLists(s: State, e: ObserverListThreadSafe.Event, a: Address)
    requires Enabled(s, e) && a in s.contexts && (e.AddBegin? || e.RemoveBegin?)
    ensures var post := Apply(s, e);
      a in post.contexts && post.contexts[a] == s.contexts[a] && post.stacks == s.stacks
  {
  }

  lemma RestLeavesLists(s: State, e: ObserverListThreadSafe.Event, a: Address)
    requires Enabled(s, e) && a in s.contexts && (e.Notify? || e.DeliverErase? || e.DeliverDelete? || e.Destroy?)
    ensures var post := Apply(s, e);
      (a in post.contexts ==> post.contexts[a] == s.contexts[a]) && post.stacks == s.stacks
  {
    if e.DeliverDelete? {
      DeleteLeavesOthers(s.(pcs := s.pcs[e.t := Idle]), s.PcOf(e.t).context, a);
    }
    hide Delete, FinishDelivery, StartDelivery, FindOrMakeContext, FindAndUnlink, WithList, Use;
  }

  lemma DeleteLeavesOthers(s: State, b: Address, a: Address)
    requires a in s.contexts
    ensures var post := Delete(s, b);
      (a in post.contexts ==> post.contexts[a] == s.contexts[a]) && post.stacks == s.stacks
  {
  }

  // ----- in every run

  /** Each context is in order as an observer list with passes on it. */
  ghost predicate InOrder(s: State) {
    forall a :: a in s.contexts ==> P.Inv(View(s, a)) && s.contexts[a].list.existingOnly == s.existingOnly
  }

  lemma StepKeepsOrder(s: State, e: ObserverListThreadSafe.Event)
    requires Inv(s) && InOrder(s) && Enabled(s, e)
    ensures InOrder(Apply(s, e))
  {
    var post := Apply(s, e);
    forall a | a in post.contexts
      ensures P.Inv(View(post, a)) && post.contexts[a].list.existingOnly == post.existingOnly
    {
      ContextInOrder(s, e, a);
    }
    hide Apply, View, P.Inv;
  }

  lemma ContextInOrder(s: State, e: ObserverListThreadSafe.Event, a: Address)
    requires Inv(s) && InOrder(s) && Enabled(s, e) && a in Apply(s, e).contexts
    ensures P.Inv(View(Apply(s, e), a)) && Apply(s, e).contexts[a].list.existingOnly == s.existingOnly
  {
    hide Inv, Apply, P.Inv, P.Step, P.Apply;
    if a in s.contexts {
      StepOnContext(s, e, a);
      if EventOn(s, e, a).Some? {
        P.StepKeepsInv(View(s, a), EventOn(s, e, a).value);
        EventKeepsKind(View(s, a), EventOn(s, e, a).value);
      }
    } else {
      NewContext(s, e, a);
      NewIsInOrder(s.existingOnly);
    }
  }

  lemma NewIsInOrder(existingOnly: bool)
    ensures P.Inv(P.Initial(existingOnly))
  {
  }

  lemma EventKeepsKind(v: P.Sys, e: P.Event)
    ensures P.Step(v, e).existingOnly == v.existingOnly
  {
  }

  lemma NewContext(s: State, e: ObserverListThreadSafe.Event, a: Address)
    requires Inv(s) && Enabled(s, e) && a !in s.contexts && a in Apply(s, e).contexts
    ensures View(Apply(s, e), a) == P.Initial(s.existingOnly)
  {
    hide Inv, Passes;
    OnlyAddMakes(s, e, a);
    assert Own(s, e.t) by { OwnOf(s, e.t); }
    NoFrames(s, s.StackOf(e.t), e.t, a);
    CountPasses(s.StackOf(e.t), a);
    hide Apply, Own;
  }

  lemma OwnOf(s: State, t: Thread)
    requires Inv(s)
    ensures Own(s, t)
  {
  }

  lemma OnlyAddMakes(s: State, e: ObserverListThreadSafe.Event, a: Address)
    requires Enabled(s, e) && a !in s.contexts && a in Apply(s, e).contexts
    ensures e.AddBegin? && Apply(s, e).contexts[a] == Context(e.t, List([], 0, s.existingOnly))
    ensures Apply(s, e).stacks == s.stacks
  {
    assert e.AddBegin?;
  }

  function NextState(s: State, e: ObserverListThreadSafe.Event): State {
    if Enabled(s, e) then Apply(s, e) else s
  }

  lemma NextInOrder(s: State, e: ObserverListThreadSafe.Event)
    requires Inv(s) && InOrder(s)
    ensures Inv(NextState(s, e)) && InOrder(NextState(s, e))
  {
    if Enabled(s, e) {
      ApplyKeepsInv(s, e);
      StepKeepsOrder(s, e);
    }
  }

  lemma {:induction false} RunInOrder(s: State, events: seq<ObserverListThreadSafe.Event>)
    requires Inv(s) && InOrder(s)
    ensures Inv(Run(s, events)) && InOrder(Run(s, events))
    decreases |events|
  {
    if events == [] {
    } else {
      NextInOrder(s, events[0]);
      hide Inv, InOrder, Apply, Enabled;
      RunInOrder(NextState(s, events[0]), events[1..]);
    }
  }

  lemma StartsInOrder(existingOnly: bool)
    ensures Inv(Initial(existingOnly)) && InOrder(Initial(existingOnly))
  {
    InitialIsSound(existingOnly);
  }

  // ----- tasks

  /** Notify posts one task for each entry of the map; a delivery takes its own; and nothing
      else posts or takes any. */
  lemma TasksOfStep(s: State, e: ObserverListThreadSafe.Event, t: Thread, a: Address)
    requires Inv(s) && Enabled(s, e)
    ensures Apply(s, e).tasks[Task(t, a)]
         == s.tasks[Task(t, a)] + (if e.Notify? && s.Linked(t, a) then 1 else 0)
            - (if e == DeliverBegin(Task(t, a)) then 1 else 0)
  {
    if e.Notify? {
      EntriesLive(s);
      PostedOnce(s, t, a);
    }
    hide Inv;
  }

  lemma EntriesLive(s: State)
    requires Inv(s)
    ensures forall t :: t in s.table ==> s.table[t] in s.contexts
  {
    forall t | t in s.table
      ensures s.table[t] in s.contexts
    {
      AtContext(s, t);
    }
  }

  lemma PostedOnce(s: State, t: Thread, a: Address)
    ensures multiset(set u | u in s.table :: Task(u, s.table[u]))[Task(t, a)] == if s.Linked(t, a) then 1 else 0
  {
  }

  // ----- the observers of a thread

  ghost function Observers(s: State, t: Thread): seq<nat> {
    if t in s.table && s.table[t] in s.contexts then Live(s.contexts[s.table[t]].list.observers) else []
  }

  // What a step makes of them.
  ghost function ObserversAfter(s: State, e: ObserverListThreadSafe.Event, t: Thread): seq<nat> {
    var was := Observers(s, t);
    if e == AddEnd(t) && s.PcOf(t).Adding? then
      if s.PcOf(t).o in was then was else was + [s.PcOf(t).o]
    else if e == RemoveEnd(t) && s.PcOf(t).Removing? && s.Linked(t, s.PcOf(t).context) then
      Positions.Without(was, s.PcOf(t).o)
    else if e.RemoveBegin? && e.t == t && t in s.table && ListOf(s, s.table[t]).observers == [Some(e.o)] then []
    else if e.Destroy? then []
    else was
  }

  // Whether the step takes the entry of the thread out of the map.
  predicate Unlinks(s: State, e: ObserverListThreadSafe.Event, t: Thread) {
    || (e.RemoveBegin? && e.t == t && t in s.table && ListOf(s, s.table[t]).observers == [Some(e.o)])
    || (e == DeliverErase(t) && s.PcOf(t).Emptied? && s.Linked(t, s.PcOf(t).context))
    || e.Destroy?
  }

  lemma TableOfStep(s: State, e: ObserverListThreadSafe.Event, t: Thread)
    requires Inv(s) && Enabled(s, e)
    ensures var post := Apply(s, e);
      if t in s.table then
        if Unlinks(s, e, t) then t !in post.table else t in post.table && post.table[t] == s.table[t]
      else t in post.table ==> e.AddBegin? && e.t == t && e.hasLoop && post.table[t] == e.at
  {
    hide Inv, Add, Remove, Begin, End, P.Advanced;
    if e.Destroy? {
      DestroyKeeps(s);
    }
  }

  lemma LinkedByOwner(s: State, t: Thread)
    requires Inv(s) && s.PcOf(t).Adding?
    ensures s.Linked(t, s.PcOf(t).context)
  {
    assert Own(s, t);
  }

  // An event on the thread's own list is a step of the thread.
  lemma EventOfOwner(s: State, e: ObserverListThreadSafe.Event, t: Thread)
    requires Inv(s) && Enabled(s, e) && t in s.table
    ensures var a := s.table[t];
      && a in s.contexts
      && (forall o :: EventOn(s, e, a) == Some(P.EAdd(o)) <==> e == AddEnd(t) && s.PcOf(t).o == o)
      && (forall o :: EventOn(s, e, a) == Some(P.ERemove(o)) <==>
           e == RemoveEnd(t) && s.PcOf(t).context == a && s.PcOf(t).o == o)
      && EventOn(s, e, a) != Some(P.EClear)
  {
    hide Inv;
    AtContext(s, t);
    if e.AddEnd? || e.RemoveEnd? {
      AtContext(s, e.t);
    }
    if s.PcOf(t).Adding? {
      LinkedByOwner(s, t);
    }
  }

  /** AddObserver and RemoveObserver do to the observers of their thread what their names say,
      and to those of other threads nothing; nor does anything else change the observers of
      any thread, until the list is destroyed. */
  lemma ObserversOfStep(s: State, e: ObserverListThreadSafe.Event, t: Thread)
    requires Inv(s) && InOrder(s) && Enabled(s, e)
    ensures Observers(Apply(s, e), t) == ObserversAfter(s, e, t)
  {
    hide Inv, InOrder, Apply, EventOn, View, P.Inv;
    var post := Apply(s, e);
    AtContext(s, t);
    ApplyKeepsInv(s, e);
    AtContext(post, t);
    TableOfStep(s, e, t);
    if t !in s.table {
      NothingRegistered(s, e, t);
    } else if Unlinks(s, e, t) {
      EntryWasEmpty(s, e, t);
    } else {
      var a := s.table[t];
      EventOfOwner(s, e, t);
      StepOnContext(s, e, a);
      ListInOrder(s, a);
      ViewHasSlots(s, a);
      ViewHasSlots(post, a);
      if EventOn(s, e, a).Some? {
        var pe := EventOn(s, e, a).value;
        P.StepRefines(View(s, a), pe);
        assert pe.EAdd? ==> EventOn(s, e, a) == Some(P.EAdd(pe.o));
        assert pe.ERemove? ==> EventOn(s, e, a) == Some(P.ERemove(pe.o));
      }
      if e == AddEnd(t) {
        assert EventOn(s, e, a) == Some(P.EAdd(s.PcOf(t).o));
      }
      if e == RemoveEnd(t) && s.Linked(t, s.PcOf(t).context) {
        assert EventOn(s, e, a) == Some(P.ERemove(s.PcOf(t).o));
      }
    }
  }

  lemma ViewHasSlots(s: State, a: Address)
    requires a in s.contexts
    ensures View(s, a).slots == s.contexts[a].list.observers && View(s, a).alive
  {
  }

  lemma ListInOrder(s: State, a: Address)
    requires InOrder(s) && a in s.contexts
    ensures P.Inv(View(s, a))
  {
  }

  lemma NothingRegistered(s: State, e: ObserverListThreadSafe.Event, t: Thread)
    requires Inv(s) && Enabled(s, e) && t !in s.table
    ensures Observers(Apply(s, e), t) == [] == ObserversAfter(s, e, t)
  {
    TableOfStep(s, e, t);
    if s.PcOf(t).Adding? {
      LinkedByOwner(s, t);
    }
    hide Inv;
  }

  lemma EntryWasEmpty(s: State, e: ObserverListThreadSafe.Event, t: Thread)
    requires Inv(s) && Enabled(s, e) && t in s.table && Unlinks(s, e, t)
    ensures ObserversAfter(s, e, t) == []
  {
    if e.DeliverErase? {
      FreeingFacts(s, t);
    }
    hide Inv;
  }

  // ----- a delivery is a pass

  /** The delivery at place k of a thread's stack is on, all the time. */
  predicate Stays(s: State, events: seq<ObserverListThreadSafe.Event>, t: Thread, k: nat)
    decreases |events|
  {
    k < |s.StackOf(t)| && (events == [] || Stays(NextState(s, events[0]), events[1..], t, k))
  }

  // What the steps are for one context.
  ghost function Trace(s: State, events: seq<ObserverListThreadSafe.Event>, a: Address): seq<P.Event>
    decreases |events|
  {
    if events == [] then []
    else
      var e := if Enabled(s, events[0]) then EventOn(s, events[0], a) else None;
      (if e.Some? then [e.value] else []) + Trace(NextState(s, events[0]), events[1..], a)
  }

  predicate Removing(s: State, t: Thread, o: nat) {
    s.PcOf(t).Removing? && s.PcOf(t).o == o
  }

  lemma FrameStays(s: State, e: ObserverListThreadSafe.Event, t: Thread, k: nat)
    requires Inv(s) && Enabled(s, e) && k < |s.StackOf(t)| && k < |Apply(s, e).StackOf(t)|
    ensures var a := s.StackOf(t)[k].context;
      && Apply(s, e).StackOf(t)[k].context == a && a in s.contexts && s.contexts[a].owner == t
      && EventOn(s, e, a) != Some(P.EEnd(k)) && EventOn(s, e, a) != Some(P.EDestroy)
  {
    AtContext(s, t);
    hide Inv, Add, Remove, Begin, Next, End, P.Advanced, FindOrMakeContext, FindAndUnlink, Delete;
    if e.DeliverEnd? {
      AtContext(s, e.t);
    }
  }

  // An observer is removed by its own thread only, in two steps.
  lemma RemovedByOwner(s: State, e: ObserverListThreadSafe.Event, t: Thread, a: Address, o: nat)
    requires Inv(s) && Enabled(s, e) && a in s.contexts && s.contexts[a].owner == t
    requires !Removing(s, t, o) && e != RemoveBegin(t, o)
    ensures !Removing(Apply(s, e), t, o)
    ensures EventOn(s, e, a).Some? ==> !P.Removes(EventOn(s, e, a).value, o)
  {
    hide Inv, Apply;
    RemovingAfter(s, e, t, o);
    if e.RemoveEnd? {
      AtContext(s, e.t);
    }
  }

  lemma RemovingAfter(s: State, e: ObserverListThreadSafe.Event, t: Thread, o: nat)
    requires Enabled(s, e) && !Removing(s, t, o) && e != RemoveBegin(t, o)
    ensures !Removing(Apply(s, e), t, o)
  {
  }

  /** While it is on, what happens to its context is a run of the list's own steps, in which the
      pass does not end. */
  lemma {:induction false} DeliveryRuns(s: State, events: seq<ObserverListThreadSafe.Event>, t: Thread, k: nat)
    requires Inv(s) && InOrder(s) && Stays(s, events, t, k)
    ensures var r, a := Run(s, events), s.StackOf(t)[k].context;
      && Inv(r) && InOrder(r) && k < |r.StackOf(t)| && r.StackOf(t)[k].context == a
      && a in s.contexts && a in r.contexts && r.contexts[a].owner == t
      && var trace := Trace(s, events, a);
         View(r, a) == P.Run(View(s, a), trace) && P.EEnd(k) !in trace && P.EDestroy !in trace
    decreases |events|
  {
    hide Inv, InOrder, Apply, Enabled, View, EventOn, P.Step;
    AtContext(s, t);
    var a := s.StackOf(t)[k].context;
    if events == [] {
    } else {
      var e, next := events[0], NextState(s, events[0]);
      NextInOrder(s, e);
      if Enabled(s, e) {
        FrameStays(s, e, t, k);
        AtContext(next, t);
        StepOnContext(s, e, a);
      }
      DeliveryRuns(next, events[1..], t, k);
      FirstOfRun(View(s, a), if Enabled(s, e) then EventOn(s, e, a) else None, Trace(next, events[1..], a));
    }
  }

  lemma FirstOfRun(v: P.Sys, e: Option<P.Event>, trace: seq<P.Event>)
    ensures P.Run(v, (if e.Some? then [e.value] else []) + trace) == P.Run(StepOn(v, e), trace)
  {
    var all := (if e.Some? then [e.value] else []) + trace;
    if e.Some? {
      assert all[0] == e.value && all[1..] == trace;
    } else {
      assert all == trace;
    }
    hide P.Step;
  }

  /** Unless its thread removes the observer o, that is not removed. */
  lemma {:induction false} NotRemovedIn(s: State, events: seq<ObserverListThreadSafe.Event>, t: Thread, k: nat, o: nat)
    requires Inv(s) && InOrder(s) && Stays(s, events, t, k)
    requires !Removing(s, t, o) && RemoveBegin(t, o) !in events
    ensures P.NotRemoved(Trace(s, events, s.StackOf(t)[k].context), o)
    decreases |events|
  {
    hide Inv, InOrder, Apply, Enabled, EventOn, P.Removes;
    AtContext(s, t);
    if events == [] {
    } else {
      NextInOrder(s, events[0]);
      if Enabled(s, events[0]) {
        FrameStays(s, events[0], t, k);
        RemovedByOwner(s, events[0], t, s.StackOf(t)[k].context, o);
      }
      NotRemovedIn(NextState(s, events[0]), events[1..], t, k, o);
    }
  }

  predicate Adding(s: State, t: Thread, o: nat) {
    s.PcOf(t).Adding? && s.PcOf(t).o == o
  }

  predicate AddsIt(e: ObserverListThreadSafe.Event, t: Thread, o: nat) {
    e.AddBegin? && e.t == t && e.o == o
  }

  lemma AddingAfter(s: State, e: ObserverListThreadSafe.Event, t: Thread, o: nat)
    requires Enabled(s, e) && !Adding(s, t, o) && !AddsIt(e, t, o)
    ensures !Adding(Apply(s, e), t, o)
  {
  }

  lemma AddedByOwner(s: State, e: ObserverListThreadSafe.Event, t: Thread, a: Address, o: nat)
    requires Inv(s) && Enabled(s, e) && a in s.contexts && s.contexts[a].owner == t && !Adding(s, t, o)
    ensures EventOn(s, e, a) != Some(P.EAdd(o))
  {
    hide Inv, Apply;
    if e.AddEnd? {
      AtContext(s, e.t);
    }
  }

  lemma {:induction false} NotAddedIn(s: State, events: seq<ObserverListThreadSafe.Event>, t: Thread, k: nat, o: nat)
    requires Inv(s) && InOrder(s) && Stays(s, events, t, k)
    requires !Adding(s, t, o) && forall e :: e in events ==> !AddsIt(e, t, o)
    ensures P.EAdd(o) !in Trace(s, events, s.StackOf(t)[k].context)
    decreases |events|
  {
    hide Inv, InOrder, Apply, Enabled, EventOn, AddsIt;
    AtContext(s, t);
    if events == [] {
    } else {
      NextInOrder(s, events[0]);
      if Enabled(s, events[0]) {
        FrameStays(s, events[0], t, k);
        AddedByOwner(s, events[0], t, s.StackOf(t)[k].context, o);
        AddingAfter(s, events[0], t, o);
      }
      NotAddedIn(NextState(s, events[0]), events[1..], t, k, o);
    }
  }

  /** A delivery that has not called the observer o when o is not registered with its context,
      be it that o was removed just now, does not call it any more; unless the thread adds it
      again. So notifications on their way to an observer that is removed are dropped. */
  lemma RemovedIsNotCalled(s: State, events: seq<ObserverListThreadSafe.Event>, t: Thread, k: nat, o: nat)
    requires Inv(s) && InOrder(s) && Stays(s, events, t, k)
    requires !Adding(s, t, o) && forall e :: e in events ==> !AddsIt(e, t, o)
    requires var f := s.StackOf(t)[k]; o !in f.pass.observers && o !in Live(ListOf(s, f.context).observers)
    ensures k < |Run(s, events).StackOf(t)| && o !in Run(s, events).StackOf(t)[k].pass.observers
  {
    hide Inv, InOrder, View, P.Inv, P.Run, Run, Trace;
    var a := s.StackOf(t)[k].context;
    AtContext(s, t);
    DeliveryRuns(s, events, t, k);
    NotAddedIn(s, events, t, k, o);
    ListInOrder(s, a);
    ViewHasSlots(s, a);
    PassOnStack(s, t, a, k);
    PassOnStack(Run(s, events), t, a, k);
    P.UnregisteredIsNotCalled(View(s, a), Trace(s, events, a), k, o);
  }

  /** An observer that is registered when a delivery to its thread begins, and that its thread
      does not remove meanwhile, has been called exactly once when the delivery comes to its
      end; whatever other observers and threads do. */
  lemma DeliveredOnce(s: State, t: Thread, a: Address, events: seq<ObserverListThreadSafe.Event>, o: nat)
    returns (m: nat)
    requires Inv(s) && InOrder(s) && Delivers(s, t, a, events) && o in Observers(s, t) && RemoveBegin(t, o) !in events
    ensures IsOnlyCall(CalledBy(s, t, a, events), m, o)
  {
    hide Inv, InOrder, View, P.Inv, P.Run, P.Step, P.AtEnd;
    var begin, k := DeliverBegin(Task(t, a)), |s.StackOf(t)|;
    var s1 := Apply(s, begin);
    AtContext(s, t);
    NextInOrder(s, begin);
    BegunAt(s, t, a);
    StepOnContext(s, begin, a);
    hide Apply;
    DeliveryRuns(s1, events, t, k);
    NotRemovedIn(s1, events, t, k, o);
    var r, trace := Run(s1, events), Trace(s1, events, a);
    ListInOrder(s, a);
    ViewHasSlots(s, a);
    PassOnStack(s, t, a, k);
    PassOnStack(r, t, a, k);
    EndOfPass(r, t, a);
    m := P.CalledOnceAtEnd(View(s, a), trace, k, o);
  }

  lemma BegunAt(s: State, t: Thread, a: Address)
    requires Inv(s) && Enabled(s, DeliverBegin(Task(t, a))) && s.Linked(t, a)
    ensures var begin, k := DeliverBegin(Task(t, a)), |s.StackOf(t)|;
      var s1 := Apply(s, begin);
      && a in s1.contexts && EventOn(s, begin, a) == Some(P.EBegin(k)) && !s1.PcOf(t).Removing?
      && |s1.StackOf(t)| == k + 1 && s1.StackOf(t)[k].context == a
  {
    hide Inv, Begin;
    AtContext(s, t);
  }

  lemma PassOnStack(s: State, t: Thread, a: Address, k: nat)
    requires a in s.contexts && s.contexts[a].owner == t
    ensures k in View(s, a).passes <==> k < |s.StackOf(t)| && s.StackOf(t)[k].context == a
    ensures k in View(s, a).passes ==> View(s, a).passes[k] == s.StackOf(t)[k].pass
  {
    Places(s.StackOf(t), a, k);
  }

  lemma EndOfPass(s: State, t: Thread, a: Address)
    requires Inv(s) && Enabled(s, DeliverEnd(t)) && TopIs(s, t, a) && a in s.contexts
    ensures P.AtEnd(View(s, a).AsList(), Top(s.StackOf(t)).pass.it)
  {
    ViewIsList(s, a);
    hide Inv, View;
  }

  // ----- from Notify to the call

  lemma {:induction false} WithoutKeeps(list: seq<nat>, x: nat, o: nat)
    requires o in list && o != x
    ensures o in Positions.Without(list, x)
  {
    if list[0] == x {
    } else if list[0] == o {
    } else {
      WithoutKeeps(list[1..], x, o);
    }
  }

  // The observer is registered, and a task for its thread's context is waiting.
  ghost predicate Awaits(s: State, t: Thread, a: Address, o: nat) {
    && Inv(s) && InOrder(s) && s.Linked(t, a) && o in Observers(s, t) && Task(t, a) in s.tasks
    && !Removing(s, t, o)
  }

  lemma StepAwaits(s: State, e: ObserverListThreadSafe.Event, t: Thread, a: Address, o: nat)
    requires Awaits(s, t, a, o) && e != RemoveBegin(t, o) && e != DeliverBegin(Task(t, a))
    ensures Awaits(NextState(s, e), t, a, o)
  {
    hide Inv, InOrder, Apply;
    NextInOrder(s, e);
    if Enabled(s, e) {
      ObserversOfStep(s, e, t);
      TableOfStep(s, e, t);
      TasksOfStep(s, e, t, a);
      RemovingAfter(s, e, t, o);
      HasObservers(s, e, t, o);
      if s.PcOf(t).Removing? {
        WithoutKeeps(Observers(s, t), s.PcOf(t).o, o);
      }
    }
  }

  // What has an observer is not taken for empty.
  lemma HasObservers(s: State, e: ObserverListThreadSafe.Event, t: Thread, o: nat)
    requires Inv(s) && Enabled(s, e) && t in s.table && o in Observers(s, t) && e != RemoveBegin(t, o) && !e.Destroy?
    ensures !Unlinks(s, e, t)
  {
    if e.DeliverErase? && e.t == t {
      FreeingFacts(s, t);
    }
    if e.RemoveBegin? {
      OneLive(e.o);
    }
    hide Inv, Live;
  }

  lemma {:induction false} RunAwaits(s: State, events: seq<ObserverListThreadSafe.Event>, t: Thread, a: Address, o: nat)
    requires Awaits(s, t, a, o) && RemoveBegin(t, o) !in events && DeliverBegin(Task(t, a)) !in events
    ensures Awaits(Run(s, events), t, a, o)
    decreases |events|
  {
    if events == [] {
    } else {
      StepAwaits(s, events[0], t, a, o);
      hide Awaits, Apply, Enabled;
      RunAwaits(NextState(s, events[0]), events[1..], t, a, o);
    }
  }

  /** A delivery to t that begins in s and that is at its end after these events. */
  predicate Delivers(s: State, t: Thread, a: Address, events: seq<ObserverListThreadSafe.Event>) {
    && Enabled(s, DeliverBegin(Task(t, a))) && s.Linked(t, a)
    && var begun := Apply(s, DeliverBegin(Task(t, a)));
       && Stays(begun, events, t, |s.StackOf(t)|)
       && var end := Run(begun, events);
          |end.StackOf(t)| == |s.StackOf(t)| + 1 && Enabled(end, DeliverEnd(t))
  }

  // What it has called.
  function CalledBy(s: State, t: Thread, a: Address, events: seq<ObserverListThreadSafe.Event>): seq<nat>
    requires Delivers(s, t, a, events)
  {
    Top(Run(Apply(s, DeliverBegin(Task(t, a))), events).StackOf(t)).pass.observers
  }

  /** What Notify is for. For an observer that is registered when Notify is called, and that its
      thread does not remove, a delivery can begin as soon as the thread is idle; and when it
      is at its end it has called the observer exactly once. Nothing that happens before it
      begins or while it is on changes that. */
  lemma NotifiedOnce(s: State, before: seq<ObserverListThreadSafe.Event>, during: seq<ObserverListThreadSafe.Event>,
                     t: Thread, o: nat)
    requires Inv(s) && InOrder(s) && o in Observers(s, t) && !Removing(s, t, o) && t in s.table
    requires RemoveBegin(t, o) !in before + during && DeliverBegin(Task(t, s.table[t])) !in before
    ensures var waiting, a := Run(Apply(s, Notify), before), s.table[t];
      && (waiting.PcOf(t).Idle? ==> Enabled(waiting, DeliverBegin(Task(t, a))) && waiting.Linked(t, a))
      && (Delivers(waiting, t, a, during) ==>
           exists m :: IsOnlyCall(CalledBy(waiting, t, a, during), m, o))
  {
    hide Apply, Stays, Inv, InOrder, IsOnlyCall;
    var a := s.table[t];
    NotifyAwaits(s, t, o);
    RunAwaits(Apply(s, Notify), before, t, a, o);
    var waiting := Run(Apply(s, Notify), before);
    if Delivers(waiting, t, a, during) {
      var m := DeliveredOnce(waiting, t, a, during, o);
    }
  }

  predicate IsOnlyCall(called: seq<nat>, m: nat, o: nat) {
    m < |called| && called[m] == o && forall n :: 0 <= n < |called| && called[n] == o ==> n == m
  }

  lemma NotifyAwaits(s: State, t: Thread, o: nat)
    requires Inv(s) && InOrder(s) && o in Observers(s, t) && !Removing(s, t, o) && t in s.table
    ensures Awaits(Apply(s, Notify), t, s.table[t], o)
  {
    hide Inv, InOrder, Apply;
    NextInOrder(s, Notify);
    ObserversOfStep(s, Notify, t);
    TableOfStep(s, Notify, t);
    TasksOfStep(s, Notify, t, s.table[t]);
    RemovingAfter(s, Notify, t, o);
  }
}
