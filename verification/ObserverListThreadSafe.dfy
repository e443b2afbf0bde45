/** base/observer_list_threadsafe.h as a step relation over any number of threads: the map
    of per-thread contexts, the delivery of posted notifications, and who frees a context.
    Every use of a context that is not alive, and every deletion of one that is not alive or
    has an iterator on it, sets `fault`. */
module ObserverListThreadSafe {
  import opened ObserverListSpec
  import opened Options
  import P = ObserverPasses

  type Thread = nat
  type Address = nat

  // Where a thread is: in AddObserver or RemoveObserver between the critical section and the
  // use of the list it found there; or at the end of NotifyWrapper, where it has found the
  // list empty but not yet taken the lock, or has erased the entry but not yet deleted.
  datatype Pc =
    | Idle
    | Adding(context: Address, o: nat)
    | Removing(context: Address, o: nat)
    | Emptied(context: Address)
    | Erased(context: Address)
  {
    // The thread is to free this context, in which it has found nothing.
    predicate Frees(a: Address) {
      (Emptied? || Erased?) && context == a
    }
  }

  // A NotifyWrapper on a thread's stack, with its iterator and what that has called.
  datatype Frame = Frame(context: Address, pass: P.Pass)

  datatype Context = Context(owner: Thread, list: List)

  datatype Task = Task(thread: Thread, context: Address)

  datatype State = State(
    existingOnly: bool,
    table: map<Thread, Address>,       // observer_lists_
    contexts: map<Address, Context>,   // the contexts that are alive
    pcs: map<Thread, Pc>,
    stacks: map<Thread, seq<Frame>>,   // innermost delivery last
    tasks: multiset<Task>,             // posted and not yet run
    fault: bool)
  {
    function PcOf(t: Thread): Pc {
      if t in pcs then pcs[t] else Idle
    }

    function StackOf(t: Thread): seq<Frame> {
      if t in stacks then stacks[t] else []
    }

    predicate Linked(t: Thread, a: Address) {
      t in table && table[t] == a
    }
  }

  datatype Event =
    | AddBegin(t: Thread, o: nat, hasLoop: bool, at: Address)
    | AddEnd(t: Thread)
    | RemoveBegin(t: Thread, o: nat)
    | RemoveEnd(t: Thread)
    | Notify
    | DeliverBegin(task: Task)
    | DeliverNext(t: Thread)
    | DeliverEnd(t: Thread)
    | DeliverErase(t: Thread)
    | DeliverDelete(t: Thread)
    | Destroy

  function Initial(existingOnly: bool): State {
    State(existingOnly, map[], map[], map[], map[], multiset{}, false)
  }

  function Use(s: State, a: Address): (r: State)
    ensures r.(fault := s.fault) == s
  {
    if a in s.contexts then s else s.(fault := true)
  }

  function WithList(s: State, a: Address, list: List): (r: State)
    ensures r.(fault := s.fault, contexts := s.contexts) == s && r.contexts.Keys == s.contexts.Keys
  {
    if a in s.contexts then s.(contexts := s.contexts[a := s.contexts[a].(list := list)]) else s.(fault := true)
  }

  function ListOf(s: State, a: Address): List {
    if a in s.contexts then s.contexts[a].list else List([], 0, false)
  }

  // delete context
  function Delete(s: State, a: Address): (r: State)
    ensures r.(fault := s.fault, contexts := s.contexts) == s && r.contexts.Keys <= s.contexts.Keys
  {
    if a in s.contexts && s.contexts[a].list.depth == 0 then s.(contexts := s.contexts - {a})
    else s.(fault := true)
  }

  // Threads that are in none of these places may go on; a thread inside a delivery is then
  // running a callback, which may call anything and may run posted tasks.
  predicate Enabled(s: State, e: Event) {
    match e
    case AddBegin(t, o, hasLoop, at) => s.PcOf(t).Idle? && at !in s.contexts
    case AddEnd(t) => s.PcOf(t).Adding?
    case RemoveBegin(t, o) => s.PcOf(t).Idle?
    case RemoveEnd(t) => s.PcOf(t).Removing?
    case Notify => true
    case DeliverBegin(task) => task in s.tasks && s.PcOf(task.thread).Idle?
    case DeliverNext(t) => s.StackOf(t) != [] && s.PcOf(t).Idle?
    case DeliverEnd(t) => s.StackOf(t) != [] && s.PcOf(t).Idle? && AtEnd(s, Top(s.StackOf(t)))
    case DeliverErase(t) => s.PcOf(t).Emptied?
    case DeliverDelete(t) => s.PcOf(t).Erased?
    case Destroy =>
      // The last reference is gone: no call is under way and no task is bound to the list.
      && s.tasks == multiset{}
      && (forall t :: t in s.stacks ==> s.stacks[t] == []) && (forall t :: t in s.pcs ==> s.pcs[t].Idle?)
  }

  function Top(stack: seq<Frame>): Frame
    requires stack != []
  {
    stack[|stack| - 1]
  }

  predicate AtEnd(s: State, f: Frame) {
    Next(ListOf(s, f.context), f.pass.it).0.None?
  }

  function Apply(s: State, e: Event): (r: State)
    requires Enabled(s, e)
    ensures r.existingOnly == s.existingOnly && (e.AddBegin? || r.contexts.Keys <= s.contexts.Keys)
    ensures e.DeliverBegin? || e.DeliverNext? || e.DeliverEnd? || r.stacks == s.stacks
  {
    match e
    case AddBegin(t, o, hasLoop, at) => if hasLoop then FindOrMakeContext(s, t, o, at) else s
    case AddEnd(t) => FinishAdd(s, t)
    case RemoveBegin(t, o) => FindAndUnlink(s, t, o)
    case RemoveEnd(t) => FinishRemove(s, t)
    case Notify => PostTasks(s)
    case DeliverBegin(task) => StartDelivery(s.(tasks := s.tasks - multiset{task}), task)
    case DeliverNext(t) => CallNext(s, t)
    case DeliverEnd(t) => FinishDelivery(s, t)
    case DeliverErase(t) =>
      var a := s.PcOf(t).context;
      s.(table := if s.Linked(t, a) then s.table - {t} else s.table, pcs := s.pcs[t := Erased(a)])
    case DeliverDelete(t) => Delete(s.(pcs := s.pcs[t := Idle]), s.PcOf(t).context)
    case Destroy => DeleteAll(s)
  }

  // AddObserver, from the end of the critical section.
  function FinishAdd(s: State, t: Thread): (r: State)
    requires s.PcOf(t).Adding?
    ensures r.contexts.Keys == s.contexts.Keys && r.pcs == s.pcs[t := Idle]
    ensures r.existingOnly == s.existingOnly && r.stacks == s.stacks && r.tasks == s.tasks && r.table == s.table
  {
    var pc := s.PcOf(t);
    WithList(s, pc.context, Add(ListOf(s, pc.context), pc.o)).(pcs := s.pcs[t := Idle])
  }

  // RemoveObserver, from the end of the critical section.
  function FinishRemove(s: State, t: Thread): (r: State)
    requires s.PcOf(t).Removing?
    ensures r.contexts.Keys <= s.contexts.Keys && r.pcs == s.pcs[t := Idle]
    ensures r.existingOnly == s.existingOnly && r.stacks == s.stacks && r.tasks == s.tasks && r.table == s.table
  {
    var pc := s.PcOf(t);
    var list := Remove(ListOf(s, pc.context), pc.o);
    var s1 := WithList(s, pc.context, list).(pcs := s.pcs[t := Idle]);
    if list.observers == [] then Delete(s1, pc.context) else s1
  }

  function PostTasks(s: State): (r: State)
    ensures r.(tasks := s.tasks, fault := s.fault) == s
  {
    if exists t :: t in s.table && s.table[t] !in s.contexts then s.(fault := true)
    else s.(tasks := s.tasks + multiset(set t | t in s.table :: Task(t, s.table[t])))
  }

  // One GetNext of NotifyWrapper, and the call of what it returns.
  function CallNext(s: State, t: Thread): (r: State)
    requires s.StackOf(t) != []
    ensures r.(stacks := s.stacks, fault := s.fault) == s
  {
    var stack := s.StackOf(t);
    var f := Top(stack);
    var pass := P.Advanced(ListOf(s, f.context), f.pass);
    Use(s, f.context).(stacks := s.stacks[t := stack[..|stack| - 1] + [f.(pass := pass)]])
  }

  // The destructor: STLDeleteValues.
  function DeleteAll(s: State): (r: State)
    ensures r.(contexts := s.contexts, table := s.table, fault := s.fault) == s && r.contexts.Keys <= s.contexts.Keys
  {
    if (exists t :: t in s.table && s.table[t] !in s.contexts)
    || (exists t, u :: t in s.table && u in s.table && t != u && s.table[t] == s.table[u])
    || (exists t :: t in s.table && s.table[t] in s.contexts && s.contexts[s.table[t]].list.depth > 0)
    then s.(fault := true)
    else s.(contexts := s.contexts - s.table.Values, table := map[])
  }

  // AddObserver, under the lock.
  function FindOrMakeContext(s: State, t: Thread, o: nat, at: Address): (r: State)
    ensures r.existingOnly == s.existingOnly && r.stacks == s.stacks && r.tasks == s.tasks
    ensures r.contexts == s.contexts || r.contexts == s.contexts[at := Context(t, List([], 0, s.existingOnly))]
    ensures r.table == if t in s.table then s.table else s.table[t := at]
    ensures r.pcs == s.pcs[t := Adding(r.table[t], o)]
  {
    var s1 :=
      if t in s.table then s
      else s.(table := s.table[t := at], contexts := s.contexts[at := Context(t, List([], 0, s.existingOnly))]);
    Use(s1, s1.table[t]).(pcs := s.pcs[t := Adding(s1.table[t], o)])
  }

  // RemoveObserver, under the lock: the entry of a list with nothing but o is erased.
  function FindAndUnlink(s: State, t: Thread, o: nat): (r: State)
    ensures r.existingOnly == s.existingOnly && r.stacks == s.stacks && r.contexts == s.contexts && r.tasks == s.tasks
    ensures r.table == if t in s.table && ListOf(s, s.table[t]).observers == [Some(o)] then s.table - {t} else s.table
    ensures r.pcs == if t in s.table then s.pcs[t := Removing(s.table[t], o)] else s.pcs
  {
    if t !in s.table then s
    else
      var a := s.table[t];
      var observers := ListOf(s, a).observers;
      var s1 := Use(s, a).(pcs := s.pcs[t := Removing(a, o)]);
      if Some(o) in observers && |observers| == 1 then s1.(table := s.table - {t}) else s1
  }

  // NotifyWrapper up to the construction of its iterator; a stale context is only compared.
  function StartDelivery(s: State, task: Task): (r: State)
    ensures r.existingOnly == s.existingOnly && r.contexts.Keys == s.contexts.Keys && r.tasks == s.tasks
    ensures r.table == s.table && r.pcs == s.pcs
  {
    var (t, a) := (task.thread, task.context);
    if !s.Linked(t, a) then s
    else
      var (list, it) := Begin(ListOf(s, a));
      var pass := P.Pass(it, |list.observers|, [], [], {});
      WithList(s, a, list).(stacks := s.stacks[t := s.StackOf(t) + [Frame(a, pass)]])
  }

  // NotifyWrapper from the destruction of its iterator to the test for an empty list.
  function FinishDelivery(s: State, t: Thread): (r: State)
    requires s.StackOf(t) != []
    ensures r.existingOnly == s.existingOnly && r.contexts.Keys == s.contexts.Keys && r.tasks == s.tasks
    ensures r.table == s.table && (r.pcs == s.pcs || r.pcs == s.pcs[t := Emptied(Top(s.StackOf(t)).context)])
    ensures r.stacks == s.stacks[t := s.StackOf(t)[..|s.StackOf(t)| - 1]]
  {
    var stack := s.StackOf(t);
    var a := Top(stack).context;
    var list := ListOf(s, a);
    var s1 := s.(stacks := s.stacks[t := stack[..|stack| - 1]]);
    if list.depth == 0 then s1.(fault := true)
    else
      var after := End(list);
      WithList(s1, a, after).(pcs := if after.observers == [] then s.pcs[t := Emptied(a)] else s.pcs)
  }

  function Run(s: State, events: seq<Event>): State
    decreases |events|
  {
    if events == [] then s
    else Run(if Enabled(s, events[0]) then Apply(s, events[0]) else s, events[1..])
  }

  // ----- the invariant

  function CountFrames(stack: seq<Frame>, a: Address): nat {
    if stack == [] then 0
    else CountFrames(stack[..|stack| - 1], a) + if Top(stack).context == a then 1 else 0
  }

  predicate AllNull(s: Slots) {
    forall k :: 0 <= k < |s| ==> s[k] == None
  }

  /** One living context, given what its thread is doing: the list's depth is the number of
      deliveries on it; an empty list stands only between the two halves of AddObserver or
      where a delivery is about to free it; and an unlinked context is about to be freed, by
      RemoveObserver or by its deliveries, which find nothing left in it. */
  predicate Sound(list: List, a: Address, linked: bool, pc: Pc, stack: seq<Frame>) {
    && list.depth == CountFrames(stack, a)
    && (list.observers == [] ==>
          list.depth == 0 && if pc.Adding? then linked && pc.context == a else pc.Frees(a))
    && (pc.Frees(a) ==> list.observers == [] && (pc.Erased? ==> !linked))
    && (!pc.Idle? && pc.context == a && linked && pc.Removing? ==> list.observers != [Some(pc.o)])
    && (!linked ==>
         if pc.Removing? && pc.context == a then list.observers == [Some(pc.o)]
         else pc.Frees(a) || (list.depth > 0 && AllNull(list.observers)))
  }

  // Everything that belongs to thread t is in order.
  predicate Own(s: State, t: Thread) {
    && (t in s.table ==> s.table[t] in s.contexts && s.contexts[s.table[t]].owner == t)
    && (forall a :: a in s.contexts && s.contexts[a].owner == t ==>
         Sound(s.contexts[a].list, a, s.Linked(t, a), s.PcOf(t), s.StackOf(t)))
    && PcSound(s, t)
    && StackSound(s, t, s.StackOf(t))
  }

  // Each place holds a living context of its own thread.
  predicate PcSound(s: State, t: Thread) {
    !s.PcOf(t).Idle? ==>
      && s.PcOf(t).context in s.contexts && s.contexts[s.PcOf(t).context].owner == t
      && (s.PcOf(t).Adding? ==> s.Linked(t, s.PcOf(t).context))
  }

  predicate StackSound(s: State, t: Thread, stack: seq<Frame>) {
    forall k :: 0 <= k < |stack| ==> stack[k].context in s.contexts && s.contexts[stack[k].context].owner == t
  }

  ghost predicate Inv(s: State) {
    !s.fault && forall t :: Own(s, t)
  }

  // A step of thread t leaves everything that belongs to other threads alone.
  ghost predicate SameElsewhere(s: State, post: State, t: Thread) {
    && (forall u :: u != t ==> s.PcOf(u) == post.PcOf(u) && s.StackOf(u) == post.StackOf(u))
    && (forall u, a :: u != t ==> s.Linked(u, a) == post.Linked(u, a))
    && (forall u :: u != t && u in post.table ==> u in s.table)
    && (forall a :: a in post.contexts && post.contexts[a].owner != t ==>
          a in s.contexts && s.contexts[a] == post.contexts[a])
    && (forall a :: a in s.contexts && s.contexts[a].owner != t ==>
          a in post.contexts && s.contexts[a] == post.contexts[a])
  }

  // The step changes nothing but one context of thread t and t's own entries.
  ghost predicate Touches(s: State, post: State, t: Thread, a: Address) {
    && (forall b :: b != a && b in s.contexts ==> b in post.contexts && post.contexts[b] == s.contexts[b])
    && (forall b :: b != a && b in post.contexts ==> b in s.contexts)
    && (a in s.contexts ==> s.contexts[a].owner == t) && (a in post.contexts ==> post.contexts[a].owner == t)
    && (forall u :: u != t && u in s.table ==> u in post.table && post.table[u] == s.table[u])
    && (forall u :: u != t && u in post.table ==> u in s.table)
    && (forall u :: u != t ==> post.PcOf(u) == s.PcOf(u))
    && (forall u :: u != t ==> post.StackOf(u) == s.StackOf(u))
  }

  // The same, read off the maps.
  lemma TouchesByMaps(s: State, post: State, t: Thread, a: Address, c: Context, pc: Pc, stack: seq<Frame>)
    requires a in s.contexts ==> s.contexts[a].owner == t
    requires c.owner == t
    requires post.contexts == s.contexts || post.contexts == s.contexts[a := c] || post.contexts == s.contexts - {a}
    requires post.table == s.table || post.table == s.table[t := a] || post.table == s.table - {t}
    requires post.pcs == s.pcs || post.pcs == s.pcs[t := pc]
    requires post.stacks == s.stacks || post.stacks == s.stacks[t := stack]
    ensures Touches(s, post, t, a)
  {
  }

  lemma TouchesOwnOnly(s: State, post: State, t: Thread, a: Address)
    requires Inv(s) && Touches(s, post, t, a) && !post.fault && Own(post, t)
    ensures Inv(post)
  {
    hide Inv, Own;
    assert SameElsewhere(s, post, t);
    OnlyThreadMatters(s, post, t);
  }

  // Own, from its parts.
  lemma OwnFromParts(s: State, t: Thread)
    requires t in s.table ==> s.table[t] in s.contexts && s.contexts[s.table[t]].owner == t
    requires forall a :: a in s.contexts && s.contexts[a].owner == t ==>
      Sound(s.contexts[a].list, a, s.Linked(t, a), s.PcOf(t), s.StackOf(t))
    requires PcSound(s, t) && StackSound(s, t, s.StackOf(t))
    ensures Own(s, t)
  {
  }

  lemma OnlyThreadMatters(s: State, post: State, t: Thread)
    requires Inv(s) && SameElsewhere(s, post, t) && Own(post, t) && !post.fault
    ensures Inv(post)
  {
    hide Sound;
    forall u
      ensures Own(post, u)
    {
      if u != t {
        assert Own(s, u);
        if u in post.table {
          assert post.Linked(u, post.table[u]);
          assert s.Linked(u, post.table[u]);
        }
      }
    }
  }

  // A context that the program counter does not point at, before and after.
  lemma SoundOther(list: List, b: Address, linked: bool, pc: Pc, postPc: Pc, stack: seq<Frame>, postStack: seq<Frame>)
    requires Sound(list, b, linked, pc, stack)
    requires (pc.Idle? || pc.context != b) && (postPc.Idle? || postPc.context != b)
    requires CountFrames(stack, b) == CountFrames(postStack, b)
    ensures Sound(list, b, linked, postPc, postStack)
  {
  }

  lemma CountPush(stack: seq<Frame>, f: Frame, b: Address)
    ensures CountFrames(stack + [f], b) == CountFrames(stack, b) + if f.context == b then 1 else 0
  {
    assert (stack + [f])[..|stack|] == stack;
  }

  lemma {:induction false} CountPositive(stack: seq<Frame>, k: nat)
    requires k < |stack|
    ensures CountFrames(stack, stack[k].context) > 0
  {
    if k == |stack| - 1 {
    } else {
      CountPositive(stack[..|stack| - 1], k);
    }
  }

  lemma AddBeginKeeps(s: State, t: Thread, o: nat, at: Address)
    requires Inv(s) && s.PcOf(t).Idle? && at !in s.contexts
    ensures Inv(FindOrMakeContext(s, t, o, at))
  {
    var post := FindOrMakeContext(s, t, o, at);
    var a := post.table[t];
    assert Own(s, t);
    forall b | b in post.contexts && post.contexts[b].owner == t
      ensures Sound(post.contexts[b].list, b, post.Linked(t, b), post.PcOf(t), post.StackOf(t))
    {
      if b in s.contexts {
        assert Sound(s.contexts[b].list, b, s.Linked(t, b), s.PcOf(t), s.StackOf(t));
      } else {
        NoFrames(s, s.StackOf(t), t, b);
      }
    }
    assert PcSound(post, t);
    assert StackSound(post, t, s.StackOf(t));
    hide Sound, StackSound, PcSound;
    OwnFromParts(post, t);
    hide Own, Touches;
    TouchesByMaps(s, post, t, a, post.contexts[a], Adding(a, o), []);
    TouchesOwnOnly(s, post, t, a);
  }

  // No delivery is on a context that is not alive.
  lemma {:induction false} NoFrames(s: State, stack: seq<Frame>, t: Thread, b: Address)
    requires StackSound(s, t, stack) && b !in s.contexts
    ensures CountFrames(stack, b) == 0
  {
    if stack == [] {
    } else {
      assert Top(stack) == stack[|stack| - 1];
      NoFrames(s, stack[..|stack| - 1], t, b);
    }
  }

  lemma AddEndKeeps(s: State, t: Thread)
    requires Inv(s) && s.PcOf(t).Adding?
    ensures Inv(Apply(s, AddEnd(t)))
  {
    var post := Apply(s, AddEnd(t));
    var a := s.PcOf(t).context;
    assert Own(s, t);
    assert Sound(s.contexts[a].list, a, s.Linked(t, a), s.PcOf(t), s.StackOf(t));
    forall b | b in post.contexts && post.contexts[b].owner == t
      ensures Sound(post.contexts[b].list, b, post.Linked(t, b), post.PcOf(t), post.StackOf(t))
    {
      assert Sound(s.contexts[b].list, b, s.Linked(t, b), s.PcOf(t), s.StackOf(t));
    }
    assert SameElsewhere(s, post, t);
    OnlyThreadMatters(s, post, t);
  }

  lemma RemoveBeginKeeps(s: State, t: Thread, o: nat)
    requires Inv(s) && s.PcOf(t).Idle?
    ensures Inv(FindAndUnlink(s, t, o))
  {
    assert Own(s, t);
    if t in s.table {
      var post := FindAndUnlink(s, t, o);
      assert Own(post, t) by {
        forall b | b in post.contexts && post.contexts[b].owner == t
          ensures Sound(post.contexts[b].list, b, post.Linked(t, b), post.PcOf(t), post.StackOf(t))
        {
          assert Sound(s.contexts[b].list, b, s.Linked(t, b), s.PcOf(t), s.StackOf(t));
        }
      }
      assert !post.fault;
      hide Own, Sound, StackSound, CountFrames, Inv;
      assert SameElsewhere(s, post, t);
      OnlyThreadMatters(s, post, t);
    }
  }

  // What RemoveObserver, outside the lock, makes of the context it works on.
  lemma SoundAfterRemove(list: List, a: Address, linked: bool, pc: Pc, stack: seq<Frame>)
    requires pc.Removing? && pc.context == a && Sound(list, a, linked, pc, stack)
    ensures var after := Remove(list, pc.o);
      && (after.observers == [] ==> after.depth == 0 && !linked)
      && (after.observers != [] ==> Sound(after, a, linked, Idle, stack))
  {
    var k := IndexOf(list.observers, pc.o);
    if linked {
      assert list.observers != [Some(pc.o)];
    } else {
      assert list.observers[..k] == [] || k == 1;
    }
  }

  lemma StackAfterTouch(s: State, post: State, t: Thread, a: Address, stack: seq<Frame>)
    requires Touches(s, post, t, a) && StackSound(s, t, stack) && a in s.contexts
    requires a in post.contexts || CountFrames(stack, a) == 0
    ensures StackSound(post, t, stack)
  {
    StackStaysSound(s, post, t, a, stack);
  }

  // The shape of a state in which only the context a of thread t changed or went away.
  ghost predicate Changed(s: State, post: State, t: Thread, a: Address) {
    && Touches(s, post, t, a) && !post.fault && a in s.contexts
    && (t in post.table ==> t in s.table && s.table[t] == post.table[t])
    && (s.Linked(t, a) == post.Linked(t, a) || a !in post.contexts)
    && (forall b :: b != a ==> s.Linked(t, b) == post.Linked(t, b))
    && (post.Linked(t, a) ==> a in post.contexts)
  }

  lemma OwnAfterChange(s: State, post: State, t: Thread, a: Address)
    requires Inv(s) && Changed(s, post, t, a)
    requires post.PcOf(t).Idle? || (post.PcOf(t).Emptied? && post.PcOf(t).context == a && a in post.contexts)
    requires s.PcOf(t).Idle? || s.PcOf(t).context == a
    requires a in post.contexts ==> Sound(post.contexts[a].list, a, post.Linked(t, a), post.PcOf(t), post.StackOf(t))
    requires forall b :: b != a ==> CountFrames(s.StackOf(t), b) == CountFrames(post.StackOf(t), b)
    requires StackSound(post, t, post.StackOf(t))
    ensures Inv(post)
  {
    assert Own(s, t);
    forall b | b in post.contexts && post.contexts[b].owner == t
      ensures Sound(post.contexts[b].list, b, post.Linked(t, b), post.PcOf(t), post.StackOf(t))
    {
      if b != a {
        SoundOther(s.contexts[b].list, b, s.Linked(t, b), s.PcOf(t), post.PcOf(t), s.StackOf(t), post.StackOf(t));
      }
    }
    assert t in post.table ==> post.Linked(t, post.table[t]);
    hide Sound, StackSound, CountFrames, AllNull;
    OwnFromParts(post, t);
    TouchesOwnOnly(s, post, t, a);
  }

  // What is known when RemoveObserver gets to its list.
  lemma RemovingFacts(s: State, t: Thread)
    requires Inv(s) && s.PcOf(t).Removing?
    ensures var pc := s.PcOf(t); var a := pc.context;
      && !s.fault && a in s.contexts && s.contexts[a].owner == t && StackSound(s, t, s.StackOf(t))
      && s.contexts[a].list.depth == CountFrames(s.StackOf(t), a)
      && var list := Remove(s.contexts[a].list, pc.o);
         && list.depth == s.contexts[a].list.depth
         && (list.observers == [] ==> list.depth == 0 && !s.Linked(t, a))
         && (list.observers != [] ==> Sound(list, a, s.Linked(t, a), Idle, s.StackOf(t)))
  {
    assert Own(s, t);
    var a := s.PcOf(t).context;
    assert Sound(s.contexts[a].list, a, s.Linked(t, a), s.PcOf(t), s.StackOf(t));
    SoundAfterRemove(s.contexts[a].list, a, s.Linked(t, a), s.PcOf(t), s.StackOf(t));
  }

  lemma RemoveEndKeeps(s: State, t: Thread)
    requires Inv(s) && s.PcOf(t).Removing?
    ensures Inv(Apply(s, RemoveEnd(t)))
  {
    hide Sound, Remove, Inv, Own, Touches, StackSound, CountFrames;
    RemovingFacts(s, t);
    var post := Apply(s, RemoveEnd(t));
    var a := s.PcOf(t).context;
    var list := Remove(s.contexts[a].list, s.PcOf(t).o);
    assert s.contexts[a := Context(t, list)] - {a} == s.contexts - {a};
    TouchesByMaps(s, post, t, a, Context(t, list), Idle, []);
    assert Changed(s, post, t, a);
    StackAfterTouch(s, post, t, a, s.StackOf(t));
    OwnAfterChange(s, post, t, a);
  }

  // A context with no delivery on it is on no stack, so its deletion leaves stacks sound.
  lemma StackStaysSound(s: State, post: State, t: Thread, a: Address, stack: seq<Frame>)
    requires StackSound(s, t, stack)
    requires forall b :: b in s.contexts && b != a ==>
      b in post.contexts && post.contexts[b].owner == s.contexts[b].owner
    requires a in s.contexts && (a in post.contexts ==> post.contexts[a].owner == s.contexts[a].owner)
    requires a in post.contexts || CountFrames(stack, a) == 0
    ensures StackSound(post, t, stack)
  {
    forall k | 0 <= k < |stack|
      ensures stack[k].context in post.contexts && post.contexts[stack[k].context].owner == t
    {
      CountPositive(stack, k);
    }
  }

  lemma DeliverBeginKeeps(s: State, task: Task)
    requires Inv(s) && s.PcOf(task.thread).Idle?
    ensures Inv(StartDelivery(s, task))
  {
    var (t, a) := (task.thread, task.context);
    if s.Linked(t, a) {
      assert Own(s, t);
      var post, stack := StartDelivery(s, task), s.StackOf(t);
      var list, f := s.contexts[a].list, Top(post.StackOf(t));
      assert Sound(list, a, true, Idle, stack);
      hide CountFrames;
      forall b
        ensures CountFrames(stack + [f], b) == CountFrames(stack, b) + if b == a then 1 else 0
      {
        CountPush(stack, f, b);
      }
      assert Sound(Begin(list).0, a, true, Idle, stack + [f]);
      assert StackSound(post, t, stack + [f]);
      hide Sound, Inv, Own, StackSound, Touches, Begin;
      TouchesByMaps(s, post, t, a, Context(t, Begin(list).0), Idle, stack + [f]);
      assert Changed(s, post, t, a);
      OwnAfterChange(s, post, t, a);
    }
  }

  lemma DeliverNextKeeps(s: State, t: Thread)
    requires Inv(s) && s.StackOf(t) != [] && s.PcOf(t).Idle?
    ensures Inv(Apply(s, DeliverNext(t)))
  {
    var post := Apply(s, DeliverNext(t));
    var stack := s.StackOf(t);
    var below, a := stack[..|stack| - 1], Top(stack).context;
    var f := Top(stack).(pass := P.Advanced(ListOf(s, a), Top(stack).pass));
    hide Next, P.Advanced;
    assert Own(s, t);
    assert a in s.contexts && s.contexts[a].owner == t;
    assert stack == below + [Top(stack)];
    hide CountFrames;
    forall b
      ensures CountFrames(stack, b) == CountFrames(below + [f], b)
    {
      CountPush(below, Top(stack), b);
      CountPush(below, f, b);
    }
    SoundOther(s.contexts[a].list, a, s.Linked(t, a), Idle, Idle, stack, below + [f]);
    assert StackSound(post, t, below + [f]);
    hide Sound, Inv, Own, StackSound, Touches;
    TouchesByMaps(s, post, t, a, s.contexts[a], Idle, below + [f]);
    assert Changed(s, post, t, a);
    OwnAfterChange(s, post, t, a);
  }

  // What the end of a delivery makes of its context.
  lemma SoundAfterDelivery(list: List, a: Address, linked: bool, stack: seq<Frame>)
    requires stack != [] && Top(stack).context == a && Sound(list, a, linked, Idle, stack)
    ensures list.depth > 0
    ensures var after := End(list);
      && Sound(after, a, linked, if after.observers == [] then Emptied(a) else Idle, stack[..|stack| - 1])
      && (!linked && list.depth == 1 ==> after.observers == [])
  {
    if list.depth == 1 && !linked {
      CompactedNulls(list.observers);
    }
  }

  lemma {:induction false} CompactedNulls(s: Slots)
    requires AllNull(s)
    ensures Compacted(s) == []
  {
    if s == [] {
    } else {
      CompactedNulls(s[1..]);
    }
  }

  lemma DeliverEndKeeps(s: State, t: Thread)
    requires Inv(s) && s.StackOf(t) != [] && s.PcOf(t).Idle?
    ensures Inv(FinishDelivery(s, t))
  {
    var post := FinishDelivery(s, t);
    var stack := s.StackOf(t);
    var below := stack[..|stack| - 1];
    var a := Top(stack).context;
    assert Own(s, t);
    assert a in s.contexts && s.contexts[a].owner == t;
    SoundAfterDelivery(s.contexts[a].list, a, s.Linked(t, a), stack);
    assert s.contexts[a].list.depth == CountFrames(stack, a) == CountFrames(below, a) + 1;
    assert End(s.contexts[a].list).depth == CountFrames(below, a);
    assert StackSound(s, t, below);
    var list := End(s.contexts[a].list);
    hide Sound, End, Inv, Own, StackSound, Touches;
    TouchesByMaps(s, post, t, a, Context(t, list), Emptied(a), below);
    assert Changed(s, post, t, a);
    StackAfterTouch(s, post, t, a, below);
    OwnAfterChange(s, post, t, a);
  }

  // The context that is to be freed.
  lemma FreeingFacts(s: State, t: Thread)
    requires Inv(s) && (s.PcOf(t).Emptied? || s.PcOf(t).Erased?)
    ensures var a := s.PcOf(t).context;
      && !s.fault && a in s.contexts && s.contexts[a].owner == t && StackSound(s, t, s.StackOf(t))
      && s.contexts[a].list.observers == [] && s.contexts[a].list.depth == CountFrames(s.StackOf(t), a) == 0
      && (s.PcOf(t).Erased? ==> !s.Linked(t, a))
  {
    assert Own(s, t);
    var a := s.PcOf(t).context;
    assert Sound(s.contexts[a].list, a, s.Linked(t, a), s.PcOf(t), s.StackOf(t));
  }

  lemma DeliverEraseKeeps(s: State, t: Thread)
    requires Inv(s) && s.PcOf(t).Emptied?
    ensures Inv(Apply(s, DeliverErase(t)))
  {
    FreeingFacts(s, t);
    assert Own(s, t);
    var post := Apply(s, DeliverErase(t));
    var a := s.PcOf(t).context;
    forall b | b in post.contexts && post.contexts[b].owner == t
      ensures Sound(post.contexts[b].list, b, post.Linked(t, b), post.PcOf(t), post.StackOf(t))
    {
      assert Sound(s.contexts[b].list, b, s.Linked(t, b), s.PcOf(t), s.StackOf(t));
      if b != a {
        SoundOther(s.contexts[b].list, b, s.Linked(t, b), s.PcOf(t), post.PcOf(t), s.StackOf(t), post.StackOf(t));
      }
    }
    assert PcSound(post, t);
    assert StackSound(post, t, s.StackOf(t));
    hide Sound, StackSound, PcSound, CountFrames;
    OwnFromParts(post, t);
    hide Own, Touches;
    TouchesByMaps(s, post, t, a, s.contexts[a], Erased(a), []);
    TouchesOwnOnly(s, post, t, a);
  }

  lemma DeliverDeleteKeeps(s: State, t: Thread)
    requires Inv(s) && s.PcOf(t).Erased?
    ensures Inv(Apply(s, DeliverDelete(t)))
  {
    hide Sound, Inv, Own, Touches, StackSound, CountFrames;
    FreeingFacts(s, t);
    var post := Apply(s, DeliverDelete(t));
    var a := s.PcOf(t).context;
    TouchesByMaps(s, post, t, a, s.contexts[a], Idle, []);
    assert Changed(s, post, t, a);
    StackAfterTouch(s, post, t, a, s.StackOf(t));
    OwnAfterChange(s, post, t, a);
  }

  lemma DestroyKeeps(s: State)
    requires Inv(s) && Enabled(s, Destroy)
    ensures var post := Apply(s, Destroy); Inv(post) && post.contexts == map[] && post.table == map[]
  {
    var post := Apply(s, Destroy);
    forall t
      ensures s.PcOf(t) == Idle && s.StackOf(t) == []
    {
    }
    forall a | a in s.contexts
      ensures s.Linked(s.contexts[a].owner, a) && s.contexts[a].list.depth == 0
      ensures a in s.table.Values
    {
      assert Own(s, s.contexts[a].owner);
      var t := s.contexts[a].owner;
      assert s.table[t] in s.table.Values;
    }
    forall t | t in s.table
      ensures s.table[t] in s.contexts && s.contexts[s.table[t]].owner == t
    {
      assert Own(s, t);
    }
    assert post.contexts == map[];
    forall t
      ensures Own(post, t)
    {
      assert Own(s, t);
    }
  }

  lemma ApplyKeepsInv(s: State, e: Event)
    requires Inv(s) && Enabled(s, e)
    ensures Inv(Apply(s, e))
  {
    match e
    case AddBegin(t, o, hasLoop, at) =>
      if hasLoop {
        AddBeginKeeps(s, t, o, at);
      }
    case AddEnd(t) => AddEndKeeps(s, t);
    case RemoveBegin(t, o) => RemoveBeginKeeps(s, t, o);
    case RemoveEnd(t) => RemoveEndKeeps(s, t);
    case Notify =>
      forall t | t in s.table
        ensures s.table[t] in s.contexts
      {
        assert Own(s, t);
      }
      TasksDoNotMatter(s, Apply(s, e).tasks);
    case DeliverBegin(task) =>
      TasksDoNotMatter(s, s.tasks - multiset{task});
      DeliverBeginKeeps(s.(tasks := s.tasks - multiset{task}), task);
    case DeliverNext(t) => DeliverNextKeeps(s, t);
    case DeliverEnd(t) => DeliverEndKeeps(s, t);
    case DeliverErase(t) => DeliverEraseKeeps(s, t);
    case DeliverDelete(t) => DeliverDeleteKeeps(s, t);
    case Destroy => DestroyKeeps(s);
  }

  lemma TasksDoNotMatter(s: State, tasks: multiset<Task>)
    requires Inv(s)
    ensures Inv(s.(tasks := tasks))
  {
    forall t
      ensures Own(s.(tasks := tasks), t)
    {
      assert Own(s, t);
    }
  }

  /** Over every interleaving, no step uses a context that is not alive, and none frees a
      context twice or while an iterator is on it. */
  lemma {:induction false} NoFault(s: State, events: seq<Event>)
    requires Inv(s)
    ensures Inv(Run(s, events))
    decreases |events|
  {
    if events == [] {
    } else {
      if Enabled(s, events[0]) {
        ApplyKeepsInv(s, events[0]);
      }
      NoFault(if Enabled(s, events[0]) then Apply(s, events[0]) else s, events[1..]);
    }
  }

  lemma InitialIsSound(existingOnly: bool)
    ensures Inv(Initial(existingOnly))
  {
    forall t
      ensures Own(Initial(existingOnly), t)
    {
    }
  }

  /** In every run each map entry points to a living context of its own thread. */
  lemma EntriesAreAlive(existingOnly: bool, events: seq<Event>)
    ensures var s := Run(Initial(existingOnly), events);
      !s.fault && forall t :: t in s.table ==> s.table[t] in s.contexts && s.contexts[s.table[t]].owner == t
  {
    InitialIsSound(existingOnly);
    NoFault(Initial(existingOnly), events);
    var s := Run(Initial(existingOnly), events);
    forall t | t in s.table
      ensures s.table[t] in s.contexts && s.contexts[s.table[t]].owner == t
    {
      assert Own(s, t);
    }
  }

  /** When the outermost delivery on a context has called its last observer, it goes on to free
      the context if that has been unlinked or has no observers left, and only then; an inner
      delivery frees nothing. */
  lemma DeliveryFrees(existingOnly: bool, events: seq<Event>, t: Thread)
    requires Enabled(Run(Initial(existingOnly), events), DeliverEnd(t))
    ensures var s := Run(Initial(existingOnly), events);
      var post, a := Apply(s, DeliverEnd(t)), Top(s.StackOf(t)).context;
      && a in s.contexts && s.contexts[a].list.depth == CountFrames(s.StackOf(t), a)
      && post.PcOf(t) in {Idle, Emptied(a)} && a in post.contexts
      && (post.PcOf(t).Emptied? <==> s.contexts[a].list.depth == 1 && Live(s.contexts[a].list.observers) == [])
      && (!s.Linked(t, a) && s.contexts[a].list.depth == 1 ==> post.PcOf(t).Emptied?)
  {
    var s := Run(Initial(existingOnly), events);
    InitialIsSound(existingOnly);
    NoFault(Initial(existingOnly), events);
    var stack := s.StackOf(t);
    var a := Top(stack).context;
    assert Own(s, t);
    assert a in s.contexts && s.contexts[a].owner == t;
    var list := s.contexts[a].list;
    SoundAfterDelivery(list, a, s.Linked(t, a), stack);
    LiveCompacted(list.observers);
    LiveAllSome(Compacted(list.observers));
  }

  // A thread that is to free a context does nothing else before.
  lemma {:induction false} StaysInPlace(s: State, events: seq<Event>, t: Thread)
    requires Inv(s) && (s.PcOf(t).Emptied? || s.PcOf(t).Erased?)
    requires (if s.PcOf(t).Emptied? then DeliverErase(t) else DeliverDelete(t)) !in events
    ensures Inv(Run(s, events)) && Run(s, events).PcOf(t) == s.PcOf(t)
    decreases |events|
  {
    if events == [] {
    } else {
      if Enabled(s, events[0]) {
        ApplyKeepsInv(s, events[0]);
        NextKeepsPlace(s, events[0], t);
      }
      StaysInPlace(if Enabled(s, events[0]) then Apply(s, events[0]) else s, events[1..], t);
    }
  }

  lemma NextKeepsPlace(s: State, e: Event, t: Thread)
    requires Enabled(s, e) && (s.PcOf(t).Emptied? || s.PcOf(t).Erased?)
    requires e != if s.PcOf(t).Emptied? then DeliverErase(t) else DeliverDelete(t)
    ensures Apply(s, e).PcOf(t) == s.PcOf(t)
  {
    if e.DeliverBegin? || e.DeliverNext? || e.DeliverEnd? {
      DeliveryKeepsPlace(s, e, t);
    } else if e.AddEnd? || e.RemoveEnd? || e.DeliverErase? || e.DeliverDelete? {
      ExitKeepsPlace(s, e, t);
    } else {
      EntryKeepsPlace(s, e, t);
    }
    hide *;
  }

  lemma EntryKeepsPlace(s: State, e: Event, t: Thread)
    requires Enabled(s, e) && (s.PcOf(t).Emptied? || s.PcOf(t).Erased?)
    requires e.AddBegin? || e.RemoveBegin? || e.Notify? || e.Destroy?
    ensures Apply(s, e).PcOf(t) == s.PcOf(t)
  {
    hide StartDelivery, FinishDelivery, Begin, Next, End, Add, Remove, ListOf, Delete, WithList;
  }

  lemma ExitKeepsPlace(s: State, e: Event, t: Thread)
    requires Enabled(s, e) && (s.PcOf(t).Emptied? || s.PcOf(t).Erased?)
    requires e != if s.PcOf(t).Emptied? then DeliverErase(t) else DeliverDelete(t)
    requires e.AddEnd? || e.RemoveEnd? || e.DeliverErase? || e.DeliverDelete?
    ensures Apply(s, e).PcOf(t) == s.PcOf(t)
  {
    hide StartDelivery, FinishDelivery, FindOrMakeContext, FindAndUnlink, Begin, Next, End, Add, Remove, ListOf;
  }

  lemma DeliveryKeepsPlace(s: State, e: Event, t: Thread)
    requires Enabled(s, e) && (s.PcOf(t).Emptied? || s.PcOf(t).Erased?)
    requires e.DeliverBegin? || e.DeliverNext? || e.DeliverEnd?
    ensures Apply(s, e).PcOf(t) == s.PcOf(t)
  {
    hide FindOrMakeContext, FindAndUnlink, Delete, Begin, Next, End, Add, Remove, ListOf;
  }

  /** And then it does free it, whatever other threads do before it takes the lock and between
      that and the deletion, posting tasks for the context among it. Until it is deleted the
      context is alive, and empty. */
  lemma EmptiedIsFreed(s: State, t: Thread, before: seq<Event>, between: seq<Event>)
    requires Inv(s) && s.PcOf(t).Emptied? && DeliverErase(t) !in before && DeliverDelete(t) !in between
    ensures var a, s1 := s.PcOf(t).context, Run(s, before);
      && Enabled(s1, DeliverErase(t)) && a in s1.contexts && s1.contexts[a].list.observers == []
      && var s2 := Run(Apply(s1, DeliverErase(t)), between);
         && Enabled(s2, DeliverDelete(t)) && a in s2.contexts && s2.contexts[a].list.observers == []
         && var s3 := Apply(s2, DeliverDelete(t));
            !s3.fault && s3.PcOf(t).Idle? && a !in s3.contexts && !s3.Linked(t, a)
  {
    StaysInPlace(s, before, t);
    var s1 := Run(s, before);
    FreeingFacts(s1, t);
    DeliverEraseKeeps(s1, t);
    StaysInPlace(Apply(s1, DeliverErase(t)), between, t);
    var s2 := Run(Apply(s1, DeliverErase(t)), between);
    FreeingFacts(s2, t);
    DeliverDeleteKeeps(s2, t);
  }

  /** Once every call has returned and every task has run, the living contexts are exactly
      the ones in the map, one for each thread that has observers; destroying the list then
      frees them all. */
  lemma NothingLeaks(existingOnly: bool, events: seq<Event>)
    requires Enabled(Run(Initial(existingOnly), events), Destroy)
    ensures var s := Run(Initial(existingOnly), events);
      && (forall a :: a in s.contexts ==> s.Linked(s.contexts[a].owner, a) && s.contexts[a].list.observers != [])
      && Apply(s, Destroy).contexts == map[] && !Apply(s, Destroy).fault
  {
    var s := Run(Initial(existingOnly), events);
    InitialIsSound(existingOnly);
    NoFault(Initial(existingOnly), events);
    DestroyKeeps(s);
    forall a | a in s.contexts
      ensures s.Linked(s.contexts[a].owner, a) && s.contexts[a].list.observers != []
    {
      assert Own(s, s.contexts[a].owner);
    }
  }
}
