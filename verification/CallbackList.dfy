/** base/callback_list.h: the list, its subscriptions and iterator, and Notify with callbacks
    that may subscribe, unsubscribe and notify again. */
module CallbackLists {
  import opened CallbackListPasses
  import opened CallbackListSpec
  import opened CallbackScripts
  import opened Positions

  class CallbackList {
    var callbacks: seq<Node>
    var activeIteratorCount: nat
    var signals: nat  // how often removal_callback_ was run

    constructor ()
      ensures View() == List([], 0, 0)
    {
      callbacks := [];
      activeIteratorCount := 0;
      signals := 0;
    }

    ghost function View(): List
      reads this
    {
      List(callbacks, activeIteratorCount, signals)
    }

    // Add; id names the node, as its address does.
    method Add(id: nat)
      modifies this`callbacks
      ensures View() == CallbackListSpec.Add(old(View()), id)
    {
      callbacks := callbacks + [Node(id, true)];
    }

    // Subscription::~Subscription for the node id.
    method DestroySubscription(id: nat)
      modifies this`callbacks, this`signals
      ensures View() == Unsubscribe(old(View()), id)
    {
      var k := IndexOf(callbacks, id);
      if k == |callbacks| {
        return;
      }
      if activeIteratorCount != 0 {
        callbacks := callbacks[k := Node(id, false)];
      } else {
        callbacks := callbacks[..k] + callbacks[k + 1..];
        signals := signals + 1;
      }
    }

    // Compact, with its loop over the list.
    method Compact()
      modifies this`callbacks, this`signals
      ensures callbacks == Compacted(old(callbacks))
      ensures signals == old(signals) + if AllLive(old(callbacks)) then 0 else 1
    {
      var it := 0;
      var updated := false;
      while it < |callbacks|
        invariant 0 <= it <= |callbacks|
        invariant AllLive(callbacks[..it])
        invariant Compacted(old(callbacks)) == Compacted(callbacks)
        invariant updated <==> |callbacks| < |old(callbacks)|
        invariant |callbacks| <= |old(callbacks)| && signals == old(signals)
        decreases |callbacks| - it
      {
        if !callbacks[it].live {
          updated := true;
          CompactedWithout(callbacks, it);
          ghost var was := callbacks;
          callbacks := callbacks[..it] + callbacks[it + 1..];
          assert callbacks[..it] == was[..it];
        } else {
          assert callbacks[..it + 1] == callbacks[..it] + [callbacks[it]];
          it := it + 1;
        }
      }
      assert callbacks[..it] == callbacks;
      CompactedAllLive(callbacks);
      if updated {
        signals := signals + 1;
      }
    }
  }

  lemma {:induction false} CompactedWithout(nodes: seq<Node>, k: nat)
    requires k < |nodes| && !nodes[k].live
    ensures Compacted(nodes[..k] + nodes[k + 1..]) == Compacted(nodes)
  {
    var t := nodes[..k] + nodes[k + 1..];
    if k == 0 {
      assert t == nodes[1..];
    } else {
      CompactedWithout(nodes[1..], k - 1);
      assert t[0] == nodes[0] && t[1..] == nodes[1..][..k - 1] + nodes[1..][k..];
    }
  }

  lemma {:induction false} CompactedAllLive(nodes: seq<Node>)
    requires AllLive(nodes)
    ensures Compacted(nodes) == nodes
  {
    if nodes == [] {
    } else {
      CompactedAllLive(nodes[1..]);
    }
  }

  class Iterator {
    const list: CallbackList
    var listIter: Position

    constructor (list: CallbackList)
      modifies list`activeIteratorCount
      ensures this.list == list && (list.View(), listIter) == Begin(old(list.View()))
    {
      this.list := list;
      listIter := PositionAt(list.callbacks, 0);
      new;
      list.activeIteratorCount := list.activeIteratorCount + 1;
    }

    method Destroy()
      requires list.activeIteratorCount > 0
      modifies list
      ensures list.View() == EndPass(old(list.View()))
    {
      list.activeIteratorCount := list.activeIteratorCount - 1;
      if list.activeIteratorCount == 0 {
        list.Compact();
      }
    }

    // The position of the node to call, or the length of the list for NULL.
    method GetNext() returns (k: nat)
      requires listIter.At? ==> listIter.k < |list.callbacks|
      modifies this`listIter
      ensures k == Target(list.callbacks, old(listIter))
      ensures listIter == Next(list.callbacks, old(listIter))
    {
      while listIter != End && !list.callbacks[listIter.k].live
        invariant listIter.At? ==> listIter.k < |list.callbacks|
        invariant Target(list.callbacks, old(listIter)) == Target(list.callbacks, listIter)
        decreases if listIter.End? then 0 else |list.callbacks| - listIter.k
      {
        listIter := PositionAt(list.callbacks, listIter.k + 1);
      }
      if listIter != End {
        k := listIter.k;
        listIter := PositionAt(list.callbacks, listIter.k + 1);
      } else {
        k := |list.callbacks|;
      }
    }
  }

  /** What the callback does that a notification has just run. */
  method RunOps(list: CallbackList, ops: Script, ghost s: Sys)
    requires Inv(s) && list.View() == s.AsList()
    modifies list
    ensures list.View() == Perform(s, ops).AsList()
    decreases ops
  {
    hide Inv, Notify, Perform, Unsubscribe, Continues;
    if ops.Stop? {
      PerformStop(s);
      return;
    }
    var op := ops.op;
    PerformNext(s, op, ops.rest);
    match op {
      case OpAdd(id) =>
        AddIsStep(s, id);
        // A new node is none of the list's.
        if IndexOf(list.callbacks, id) == |list.callbacks| {
          list.Add(id);
        }
      case OpUnsubscribe(id) =>
        UnsubscribeIsStep(s, id);
        list.DestroySubscription(id);
      case OpNotify(bodies) =>
        var _ := NotifyAll(list, bodies, s);
    }
    RunOps(list, ops.rest, PerformOne(s, op));
  }

  lemma PerformStop(s: Sys)
    requires Inv(s)
    ensures Perform(s, Stop) == s
  {
  }

  lemma PerformNext(s: Sys, op: Op, rest: Script)
    requires Inv(s)
    ensures Inv(PerformOne(s, op)) && Perform(s, Do(op, rest)) == Perform(PerformOne(s, op), rest)
    ensures op.OpNotify? ==> PerformOne(s, op) == Notify(s, op.bodies)
  {
  }

  lemma AddIsStep(s: Sys, id: nat)
    requires Inv(s)
    ensures PerformOne(s, OpAdd(id)).AsList()
         == if IndexOf(s.nodes, id) == |s.nodes| then CallbackListSpec.Add(s.AsList(), id) else s.AsList()
  {
  }

  lemma UnsubscribeIsStep(s: Sys, id: nat)
    requires Inv(s)
    ensures PerformOne(s, OpUnsubscribe(id)).AsList() == Unsubscribe(s.AsList(), id)
  {
  }

  // The list and an iterator as they are in a state of the step relation, with the callbacks
  // that the iterator's pass has called.
  ghost predicate Stands(view: List, at: Position, s: Sys, i: nat, called: seq<nat>) {
    && Inv(s) && view == s.AsList() && i in s.passes && s.passes[i].at == at
    && (at.At? ==> at.k < |view.nodes|)
    && AreNodes(s.nodes, s.passes[i].calls) && called == Ids(s.nodes, s.passes[i].calls)
  }

  /** Notify: the list afterwards, and the callbacks that are run, in order. */
  method NotifyAll(list: CallbackList, bodies: Bodies, ghost s: Sys) returns (called: seq<nat>)
    requires Inv(s) && list.View() == s.AsList()
    modifies list
    ensures list.View() == Notify(s, bodies).AsList() && called == Called(s, bodies)
    decreases bodies
  {
    hide Inv, Begin, Next, Target, EndPass, Step, Perform, Passing, Notified, Notify, Called, Ids, AreNodes;
    ghost var i := Fresh(s.passes.Keys);
    NotifyBegins(s, bodies);
    var it := new Iterator(list);
    ghost var u := Step(s, EBegin(i));
    var left := bodies;
    called := [];
    GetNextIsStep(list.View(), it.listIter, u, i, left, called);
    var k: nat := it.GetNext();
    u := Step(u, ENext(i));
    while k < |list.callbacks|
      invariant fresh(it) && it.list == list && k <= |list.callbacks|
      invariant left == bodies || left < bodies
      invariant if k < |list.callbacks| then
                  && Stands(list.View(), it.listIter, u, i, called + [list.callbacks[k].id])
                  && Notified(s, bodies) == Passing(Perform(u, left.Ops()), i, left.Rest())
                else
                  && Stands(list.View(), it.listIter, u, i, called)
                  && Notified(s, bodies) == u
      decreases left, if it.listIter.End? then 0 else |list.callbacks| - it.listIter.k, k < |list.callbacks|
    {
      called := called + [list.callbacks[k].id];
      BodyKeepsPass(list.View(), it.listIter, u, i, left.Ops(), called);
      if left.Body? {
        RunOps(list, left.ops, u);
        u := Perform(u, left.ops);
        left := left.rest;
      }
      GetNextIsStep(list.View(), it.listIter, u, i, left, called);
      k := it.GetNext();
      u := Step(u, ENext(i));
    }
    NotifyEnds(list.View(), it.listIter, s, bodies, called);
    it.Destroy();
  }

  lemma NotifyBegins(s: Sys, bodies: Bodies)
    requires Inv(s)
    ensures var i, u := Fresh(s.passes.Keys), Step(s, EBegin(Fresh(s.passes.Keys)));
      && Stands(Begin(s.AsList()).0, Begin(s.AsList()).1, u, i, [])
      && Notified(s, bodies) == Passing(u, i, bodies)
  {
    StepKeepsInv(s, EBegin(Fresh(s.passes.Keys)));
  }

  lemma GetNextIsStep(view: List, at: Position, s: Sys, i: nat, left: Bodies, called: seq<nat>)
    requires Stands(view, at, s, i, called)
    ensures at.At? ==> at.k < |view.nodes|
    ensures var t, k := Step(s, ENext(i)), Target(view.nodes, at);
      if k < |view.nodes| then
        && at.At? && (Next(view.nodes, at).At? ==> at.k < Next(view.nodes, at).k < |view.nodes|)
        && Stands(view, Next(view.nodes, at), t, i, called + [view.nodes[k].id])
        && Passing(s, i, left) == Passing(Perform(t, left.Ops()), i, left.Rest())
      else
        k == |view.nodes| && Stands(view, Next(view.nodes, at), t, i, called) && Passing(s, i, left) == t
  {
    GetNextKeeps(s, i);
    var t := Step(s, ENext(i));
    CallsAreNodes(t, i);
  }

  lemma BodyKeepsPass(view: List, at: Position, s: Sys, i: nat, ops: Script, called: seq<nat>)
    requires Stands(view, at, s, i, called)
    ensures Inv(s) && view == s.AsList()
    ensures var t := Perform(s, ops);
      |view.nodes| <= |t.nodes| && Stands(t.AsList(), at, t, i, called)
    ensures ops.Stop? ==> Perform(s, ops) == s
  {
  }

  lemma NotifyEnds(view: List, at: Position, s: Sys, bodies: Bodies, called: seq<nat>)
    requires Inv(s) && Stands(view, at, Notified(s, bodies), Fresh(s.passes.Keys), called)
    ensures view.active > 0 && EndPass(view) == Notify(s, bodies).AsList() && called == Called(s, bodies)
  {
    EndIsStep(Notified(s, bodies), Fresh(s.passes.Keys));
    hide Inv, Step, Notified, EndPass, AreNodes, Ids;
  }

  lemma EndIsStep(s: Sys, i: nat)
    requires i in s.passes
    ensures s.AsList().active > 0 && Step(s, EEnd(i)).AsList() == EndPass(s.AsList())
  {
    assert |s.passes| == |s.passes - {i}| + 1;
  }
}
