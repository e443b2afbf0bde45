/** base/observer_list.h: the list, its iterator, and FOR_EACH_OBSERVER with callbacks that
    may change the list and start further notifications. */
module ObserverLists {
  import opened ObserverListSpec
  import opened ObserverPasses
  import opened ObserverScripts
  import opened Options
  import opened Positions

  class ObserverList {
    var observers: Slots
    var notifyDepth: nat
    const existingOnly: bool
    var alive: bool  // until it is destroyed; weak pointers to it are then null

    constructor (existingOnly: bool)
      ensures this.existingOnly == existingOnly && View() == List([], 0, existingOnly) && alive
    {
      this.existingOnly := existingOnly;
      observers := [];
      notifyDepth := 0;
      alive := true;
    }

    // ~ObserverListBase
    method Destroy()
      requires alive
      modifies this`alive
      ensures !alive
    {
      alive := false;
    }

    ghost function View(): List
      reads this
    {
      List(observers, notifyDepth, existingOnly)
    }

    method AddObserver(o: nat)
      modifies this`observers
      ensures View() == Add(old(View()), o)
    {
      if Some(o) in observers {
        return;
      }
      observers := observers + [Some(o)];
    }

    method RemoveObserver(o: nat)
      modifies this`observers
      ensures View() == Remove(old(View()), o)
    {
      var it := IndexOf(observers, o);
      if it != |observers| {
        if notifyDepth != 0 {
          observers := observers[it := None];
        } else {
          observers := observers[..it] + observers[it + 1..];
        }
      }
    }

    method HasObserver(o: nat) returns (has: bool)
      ensures has <==> o in Live(observers)
    {
      LiveMembers(observers, o);
      var i := 0;
      while i < |observers|
        invariant 0 <= i <= |observers| && Some(o) !in observers[..i]
      {
        if observers[i] == Some(o) {
          return true;
        }
        assert observers[..i + 1] == observers[..i] + [observers[i]];
        i := i + 1;
      }
      assert observers[..|observers|] == observers;
      return false;
    }

    method Clear()
      modifies this`observers
      ensures View() == ObserverListSpec.Clear(old(View()))
    {
      if notifyDepth != 0 {
        var it := 0;
        while it < |observers|
          invariant 0 <= it <= |observers| == |old(observers)|
          invariant observers[..it] == Nulls(it)
        {
          observers := observers[it := None];
          assert observers[..it + 1] == observers[..it] + [None];
          it := it + 1;
        }
        assert observers == observers[..|observers|];
      } else {
        observers := [];
      }
    }

    // Compact: std::remove moves what is not null to the front, and erase cuts off the rest.
    method Compact()
      modifies this`observers
      ensures observers == Compacted(old(observers))
    {
      ghost var was := observers;
      var result, first := 0, 0;
      hide Compacted;
      while first < |observers|
        invariant 0 <= result <= first <= |observers| == |was|
        invariant observers[..result] == Compacted(was[..first]) && observers[first..] == was[first..]
      {
        CompactedWithOneMore(was, first);
        assert observers[first] == was[first];
        Moved(observers, result, first);
        if observers[first] != None {
          observers := observers[result := observers[first]];
          result := result + 1;
        }
        first := first + 1;
      }
      assert was[..first] == was;
      observers := observers[..result];
    }
  }

  lemma {:induction false} CompactedWithOneMore(s: Slots, k: nat)
    requires k < |s|
    ensures Compacted(s[..k + 1]) == if s[k] == None then Compacted(s[..k]) else Compacted(s[..k]) + [s[k]]
  {
    if k == 0 {
      assert s[..1][1..] == [] && s[..0] == [];
    } else {
      CompactedWithOneMore(s[1..], k - 1);
      CompactedFromFront(s, k);
      CompactedFromFront(s, k + 1);
      hide Compacted;
      Regroup(if s[0] == None then [] else [s[0]], Compacted(s[1..][..k - 1]), [s[k]]);
    }
  }

  lemma Moved<T>(s: seq<T>, result: nat, first: nat)
    requires result <= first < |s|
    ensures var t := s[result := s[first]];
      t[..result + 1] == s[..result] + [s[first]] && t[first + 1..] == s[first + 1..] == s[first..][1..]
  {
  }

  lemma CompactedFromFront(s: Slots, k: nat)
    requires 0 < k <= |s|
    ensures Compacted(s[..k]) == (if s[0] == None then [] else [s[0]]) + Compacted(s[1..][..k - 1])
  {
    assert s[..k][1..] == s[1..][..k - 1];
  }

  class Iterator {
    const list: ObserverList
    var index: nat
    const maxIndex: Option<nat>

    ghost function View(): Iter
      reads this
    {
      Iter(index, maxIndex)
    }

    constructor (list: ObserverList)
      modifies list`notifyDepth
      ensures this.list == list && (list.View(), View()) == Begin(old(list.View()))
    {
      this.list := list;
      index := 0;
      maxIndex := if list.existingOnly then Some(|list.observers|) else None;
      new;
      list.notifyDepth := list.notifyDepth + 1;
    }

    method GetNext() returns (o: Option<nat>)
      modifies this`index
      ensures (o, View()) == if list.alive then Next(list.View(), old(View())) else (None, old(View()))
    {
      if !list.alive {
        return None;
      }
      var observers := list.observers;
      var limit := if maxIndex.Some? && maxIndex.value < |observers| then maxIndex.value else |observers|;
      while index < limit && observers[index] == None
        invariant Skip(observers, old(index), limit) == Skip(observers, index, limit)
        decreases limit - index
      {
        index := index + 1;
      }
      if index < limit {
        o := observers[index];
        index := index + 1;
      } else {
        o := None;
      }
    }

    // The destructor.
    method Destroy()
      requires list.alive ==> list.notifyDepth > 0
      modifies list`notifyDepth, list`observers
      ensures list.View() == if old(list.alive) then End(old(list.View())) else old(list.View())
    {
      if list.alive {
        list.notifyDepth := list.notifyDepth - 1;
        if list.notifyDepth == 0 {
          list.Compact();
        }
      }
    }
  }

  // The list is as in this state; of one that has been destroyed nothing is left to see.
  ghost predicate Matches(list: ObserverList, s: Sys)
    reads list
  {
    list.alive == s.alive && list.existingOnly == s.existingOnly && (s.alive ==> list.View() == s.AsList())
  }

  /** What the callback does that has just been called. */
  method RunOps(list: ObserverList, ops: Script, ghost s: Sys)
    requires Inv(s) && Matches(list, s)
    modifies list
    ensures Matches(list, Perform(s, ops))
    decreases ops, 0
  {
    hide Inv, Notify, Perform, PerformOne, Remove, Add, Clear;
    if ops.Stop? || !list.alive {
      PerformStops(s, ops);
      return;
    }
    var op := ops.op;
    PerformNext(s, op, ops.rest);
    match op {
      case OpAdd(o) => list.AddObserver(o);
      case OpRemove(o) => list.RemoveObserver(o);
      case OpClear => list.Clear();
      case OpDestroy => list.Destroy();
      case OpNotify(bodies) => var _ := ForEachObserver(list, bodies, s);
    }
    RunOps(list, ops.rest, PerformOne(s, op));
  }

  lemma PerformStops(s: Sys, ops: Script)
    requires Inv(s) && (ops.Stop? || !s.alive)
    ensures Perform(s, ops) == s
  {
  }

  function Done(list: List, op: Op): List
    requires !op.OpNotify?
  {
    match op
    case OpAdd(o) => Add(list, o)
    case OpRemove(o) => Remove(list, o)
    case OpClear => Clear(list)
    case OpDestroy => list
  }

  lemma PerformNext(s: Sys, op: Op, rest: Script)
    requires Inv(s) && s.alive
    ensures var t := PerformOne(s, op);
      && Inv(t) && t.existingOnly == s.existingOnly && Perform(s, Do(op, rest)) == Perform(t, rest)
      && t.alive == (if op.OpNotify? then Notify(s, op.bodies).alive else !op.OpDestroy?)
      && t.AsList() == if op.OpNotify? then Notify(s, op.bodies).AsList() else Done(s.AsList(), op)
  {
  }

  // What the observer that has just been called does, while pass i is on.
  method RunBody(list: ObserverList, left: Bodies, ghost it: Iter, ghost s: Sys, ghost i: nat, ghost called: seq<nat>)
    returns (rest: Bodies, ghost t: Sys)
    requires Stands(list, it, s, i, called)
    modifies list
    ensures rest == left.Rest() && (if left.Body? then rest < left else t == s)
    ensures t == Perform(s, left.Ops()) && Stands(list, it, t, i, called)
    decreases left, 0
  {
    BodyKeepsPass(s, i, left.Ops());
    hide Inv, Matches, Perform;
    t := s;
    if left.Body? {
      RunOps(list, left.ops, s);
      t := Perform(s, left.ops);
    }
    rest := left.Rest();
  }

  // The list and an iterator as they are in a state of the step relation, with the observers
  // that the iterator's pass has called.
  ghost predicate Stands(list: ObserverList, it: Iter, s: Sys, i: nat, called: seq<nat>)
    reads list
  {
    Inv(s) && Matches(list, s) && i in s.passes && s.passes[i].it == it && s.passes[i].observers == called
  }

  /** FOR_EACH_OBSERVER: the list afterwards, and the observers that are called, in order. */
  method ForEachObserver(list: ObserverList, bodies: Bodies, ghost s: Sys) returns (called: seq<nat>)
    requires Inv(s) && s.alive && Matches(list, s)
    modifies list
    ensures Matches(list, Notify(s, bodies)) && called == Called(s, bodies)
    decreases bodies, 1
  {
    hide Inv, Begin, Next, End, Step, Perform, Passing, Notified, Notify, Called, Left, Continues;
    called := [];
    if |list.observers| == 0 {  // might_have_observers
      NothingToNotify(s, bodies);
      return;
    }
    ghost var i := Fresh(s.passes.Keys);
    NotifyBegins(s, bodies);
    var it := new Iterator(list);
    ghost var u := Step(s, EBegin(i));
    var left := bodies;
    assert Stands(list, it.View(), u, i, called);
    hide Stands, Matches;
    GetNextIsStep(list, it.View(), u, i, left, called);
    var o := it.GetNext();
    u := Step(u, ENext(i));
    while o.Some?
      invariant fresh(it) && it.list == list
      invariant left == bodies || left < bodies
      invariant Stands(list, it.View(), u, i, if o.Some? then called + [o.value] else called)
      invariant Notified(s, bodies) == if o.Some? then Passing(Perform(u, left.Ops()), i, left.Rest()) else u
      decreases left, Left(u, i), o.Some?
    {
      called := called + [o.value];
      left, u := RunBody(list, left, it.View(), u, i, called);
      GetNextIsStep(list, it.View(), u, i, left, called);
      o := it.GetNext();
      u := Step(u, ENext(i));
    }
    NotifyEnds(list, it.View(), s, bodies, called);
    it.Destroy();
    EndMatches(list, s, bodies);
  }

  lemma NothingToNotify(s: Sys, bodies: Bodies)
    requires Inv(s) && s.alive && s.slots == []
    ensures Notify(s, bodies) == s && Called(s, bodies) == []
  {
  }

  lemma NotifyBegins(s: Sys, bodies: Bodies)
    requires Inv(s) && s.alive
    ensures var i := Fresh(s.passes.Keys);
      var u := Step(s, EBegin(i));
      && Inv(u) && u.alive && u.existingOnly == s.existingOnly && i in u.passes
      && u.AsList() == Begin(s.AsList()).0 && u.passes[i].it == Begin(s.AsList()).1 && u.passes[i].observers == []
      && Notified(s, bodies) == Passing(u, i, bodies)
  {
    StepKeepsInv(s, EBegin(Fresh(s.passes.Keys)));
  }

  lemma GetNextIsStep(list: ObserverList, it: Iter, s: Sys, i: nat, left: Bodies, called: seq<nat>)
    requires Stands(list, it, s, i, called)
    ensures var t := Step(s, ENext(i));
      var (o, next) := if list.alive then Next(list.View(), it) else (None, it);
      && Left(t, i) <= Left(s, i) && (o.Some? ==> Left(t, i) < Left(s, i))
      && Stands(list, next, t, i, if o.Some? then called + [o.value] else called)
      && Passing(s, i, left) == if o.Some? then Passing(Perform(t, left.Ops()), i, left.Rest()) else t
  {
    GetNextKeeps(s, i);
  }

  lemma BodyKeepsPass(s: Sys, i: nat, ops: Script)
    requires Inv(s) && i in s.passes
    ensures Inv(Perform(s, ops)) && Perform(s, ops).passes == s.passes && (ops.Stop? ==> Perform(s, ops) == s)
  {
  }

  lemma NotifyEnds(list: ObserverList, it: Iter, s: Sys, bodies: Bodies, called: seq<nat>)
    requires Inv(s) && s.alive && s.slots != []
    requires Stands(list, it, Notified(s, bodies), Fresh(s.passes.Keys), called)
    ensures called == Called(s, bodies) && (list.alive ==> list.notifyDepth > 0)
    ensures list.alive == Notify(s, bodies).alive && list.existingOnly == Notify(s, bodies).existingOnly
    ensures list.alive ==> Notify(s, bodies).AsList() == End(list.View())
  {
    EndIsStep(Notified(s, bodies), Fresh(s.passes.Keys));
    hide Inv, Step, Notified, End;
  }

  lemma EndMatches(list: ObserverList, s: Sys, bodies: Bodies)
    requires Inv(s) && s.alive
    requires list.alive == Notify(s, bodies).alive && list.existingOnly == Notify(s, bodies).existingOnly
    requires list.alive ==> list.View() == Notify(s, bodies).AsList()
    ensures Matches(list, Notify(s, bodies))
  {
  }

  lemma EndIsStep(s: Sys, i: nat)
    requires i in s.passes
    ensures var t := Step(s, EEnd(i));
      && s.AsList().depth > 0 && t.alive == s.alive && t.existingOnly == s.existingOnly
      && (s.alive ==> t.AsList() == End(s.AsList()))
  {
    assert |s.passes| == |s.passes - {i}| + 1;
  }
}
