/** What a notification of base/callback_list.h calls, over every interleaving of
    subscriptions, their destruction, and (possibly nested) notifications. */
module CallbackListPasses {
  import opened CallbackListSpec
  import opened Positions

  /** Every node that the iterator has moved past was either called, once and in order, or
      was reset when the iterator came to it. */
  predicate Accounted(nodes: seq<Node>, p: Pass) {
    && InBounds(nodes, p) && p.Reached() <= |nodes|
    && Increasing(p.calls)
    && (forall k :: k in p.calls ==> k < p.Reached() && k !in p.skipped)
    && (forall k :: 0 <= k < p.Reached() ==> k in p.calls || k in p.skipped)
    && (forall k :: k in p.skipped ==> k < p.Reached() && !nodes[k].live)
  }

  predicate DistinctIds(nodes: seq<Node>) {
    forall i, j :: 0 <= i < j < |nodes| ==> nodes[i].id != nodes[j].id
  }

  predicate Inv(s: Sys) {
    && DistinctIds(s.nodes)
    && (s.passes == map[] ==> AllLive(s.nodes))
    && (forall i :: i in s.passes ==> Accounted(s.nodes, s.passes[i]))
  }

  // Nodes keep their places; a reset callback stays reset.
  predicate Continues(s: seq<Node>, t: seq<Node>) {
    |s| <= |t| && forall k :: 0 <= k < |s| ==> t[k].id == s[k].id && (t[k].live ==> s[k].live)
  }

  lemma StillAccounted(s: seq<Node>, t: seq<Node>, p: Pass)
    requires Accounted(s, p) && Continues(s, t)
    ensures Accounted(t, p)
  {
  }

  lemma AdvancedAccounted(nodes: seq<Node>, p: Pass)
    requires Accounted(nodes, p)
    ensures Accounted(nodes, Advanced(nodes, p))
    ensures p.Reached() <= Advanced(nodes, p).Reached()
  {
    if p.at.At? {
      var k, q := Target(nodes, p.at), Advanced(nodes, p);
      assert q.Reached() == if k < |nodes| then k + 1 else |nodes|;
      if k < |nodes| {
        assert q.calls[|p.calls|] == k;
      }
      forall j | 0 <= j < q.Reached()
        ensures j in q.calls || j in q.skipped
      {
        if j < p.at.k && j in p.calls {
          var i :| 0 <= i < |p.calls| && p.calls[i] == j;
          assert q.calls[i] == j;
        }
      }
      forall i, j | 0 <= i < j < |q.calls|
        ensures q.calls[i] < q.calls[j]
      {
        assert q.calls[i] == p.calls[i] && p.calls[i] in p.calls;
      }
    }
  }

  lemma CompactedKeepsDistinct(nodes: seq<Node>)
    requires DistinctIds(nodes)
    ensures DistinctIds(Compacted(nodes)) && AllLive(Compacted(nodes))
  {
    if nodes == [] {
    } else {
      CompactedKeepsDistinct(nodes[1..]);
      if nodes[0].live {
        var rest := Compacted(nodes[1..]);
        forall j | 0 <= j < |rest|
          ensures rest[j].id != nodes[0].id
        {
          assert rest[j] in nodes[1..];
        }
      }
    }
  }

  lemma NodesContinue(s: Sys, e: Event)
    requires Enabled(s, e) && s.passes != map[] && (e.EEnd? ==> |s.passes| > 1)
    ensures Continues(s.nodes, Apply(s, e).nodes)
  {
    assert |s.passes| > 0;
  }

  lemma StaysDistinct(s: Sys, e: Event)
    requires Inv(s) && Enabled(s, e)
    ensures DistinctIds(Apply(s, e).nodes)
  {
    if e.EEnd? {
      CompactedKeepsDistinct(s.nodes);
    }
  }

  lemma ApplyKeepsInv(s: Sys, e: Event)
    requires Inv(s) && Enabled(s, e)
    ensures Inv(Apply(s, e))
  {
    var t := Apply(s, e);
    StaysDistinct(s, e);
    if e.EEnd? && |s.passes| == 1 {
      CompactedKeepsDistinct(s.nodes);
      assert |t.passes| == 0;
    } else if s.passes == map[] {
      NothingPassed(s, e);
    } else {
      NodesContinue(s, e);
      assert |t.passes| > 0;
      hide Accounted, Continues;
      forall i | i in t.passes
        ensures Accounted(t.nodes, t.passes[i])
      {
        if i in s.passes && !(e.ENext? && e.pass == i) {
          StillAccounted(s.nodes, t.nodes, s.passes[i]);
        } else if i in s.passes {
          AdvancedAccounted(s.nodes, s.passes[i]);
          assert InBounds(s.nodes, s.passes[i]) by { AreInBounds(s.nodes, s.passes[i]); }
        } else {
          NewPassAccounted(s.nodes);
        }
      }
    }
  }

  lemma AreInBounds(nodes: seq<Node>, p: Pass)
    requires Accounted(nodes, p)
    ensures InBounds(nodes, p)
  {
  }

  lemma NewPassAccounted(nodes: seq<Node>)
    ensures Accounted(nodes, Pass(PositionAt(nodes, 0), [], {}, 0))
  {
  }

  // Without a pass, subscriptions come and go, or a first pass begins.
  lemma NothingPassed(s: Sys, e: Event)
    requires Inv(s) && Enabled(s, e) && s.passes == map[]
    ensures var t := Apply(s, e);
      (t.passes == map[] ==> AllLive(t.nodes)) && forall i :: i in t.passes ==> Accounted(t.nodes, t.passes[i])
  {
    NewPassAccounted(s.nodes);
  }

  lemma StepKeepsInv(s: Sys, e: Event)
    requires Inv(s)
    ensures Inv(Step(s, e))
  {
    if Enabled(s, e) {
      ApplyKeepsInv(s, e);
    }
  }

  lemma {:induction false} RunKeepsInv(s: Sys, events: seq<Event>)
    requires Inv(s)
    ensures Inv(Run(s, events))
    decreases |events|
  {
    if events == [] {
    } else {
      StepKeepsInv(s, events[0]);
      RunKeepsInv(Step(s, events[0]), events[1..]);
    }
  }

  // ----- what a pass calls

  /** The next state, as a pass that is on sees it. Nodes stay, and one is live until its
      subscription is destroyed; what the pass has called stays called; and of the nodes that
      its GetNext goes past it calls exactly the one that is live, the others being reset. */
  predicate PassGoesOn(s: seq<Node>, t: seq<Node>, e: Event, i: nat, p: Pass, q: Pass) {
    && NodesGoOn(s, t, e)
    && p.Reached() <= q.Reached() && p.calls <= q.calls
    && (forall k :: 0 <= k < p.Reached() ==> (k in q.calls <==> k in p.calls))
    && (forall k :: p.Reached() <= k < q.Reached() ==> e == ENext(i) && k < |s| && (k in q.calls <==> s[k].live))
    && (p.at.End? ==> q == p)
    && (p.at.At? && q.at.End? ==> q.ended >= |s|)
  }

  predicate NodesGoOn(s: seq<Node>, t: seq<Node>, e: Event) {
    && Continues(s, t)
    && forall k :: 0 <= k < |s| ==> (t[k].live <==> s[k].live && e != EUnsubscribe(s[k].id))
  }

  lemma StepOfPass(s: Sys, e: Event, i: nat)
    requires Inv(s) && i in s.passes && e != EEnd(i)
    ensures var t := Step(s, e);
      Inv(t) && i in t.passes && PassGoesOn(s.nodes, t.nodes, e, i, s.passes[i], t.passes[i])
  {
    var t := Step(s, e);
    StepKeepsInv(s, e);
    NodesStayLive(s, e, i);
    hide DistinctIds, PassGoesOn, NodesGoOn, Unsubscribe, Compacted, Advanced;
    if e == ENext(i) {
      GetNextCallsLive(s.nodes, i, s.passes[i]);
    } else {
      SamePass(s.nodes, t.nodes, e, i, s.passes[i]);
    }
    hide Accounted;
  }

  lemma SamePass(s: seq<Node>, t: seq<Node>, e: Event, i: nat, p: Pass)
    requires NodesGoOn(s, t, e) && Accounted(s, p)
    ensures PassGoesOn(s, t, e, i, p, p)
  {
  }

  lemma NodesStayLive(s: Sys, e: Event, i: nat)
    requires Inv(s) && i in s.passes && e != EEnd(i)
    ensures NodesGoOn(s.nodes, Step(s, e).nodes, e)
  {
    hide Accounted;
    if Enabled(s, e) {
      if e.EEnd? && |s.passes| == 1 {
        OnlyPass(s.passes, i);
      }
      NodesContinue(s, e);
    }
    if e.EUnsubscribe? {
      var j := IndexOf(s.nodes, e.id);
      forall k | 0 <= k < |s.nodes|
        ensures Step(s, e).nodes[k].live <==> s.nodes[k].live && e != EUnsubscribe(s.nodes[k].id)
      {
        assert s.nodes[k].id == e.id ==> k == j;
      }
    }
  }

  lemma GetNextCallsLive(nodes: seq<Node>, i: nat, p: Pass)
    requires Accounted(nodes, p)
    ensures InBounds(nodes, p) && PassGoesOn(nodes, nodes, ENext(i), i, p, Advanced(nodes, p))
  {
    AdvancedAccounted(nodes, p);
    if p.at.At? {
      var k, q := Target(nodes, p.at), Advanced(nodes, p);
      assert q.Reached() == if k < |nodes| then k + 1 else |nodes|;
      if k < |nodes| {
        assert q.calls == p.calls + [k] && q.calls[|p.calls|] == k;
      }
      forall j | 0 <= j < q.Reached()
        ensures j < p.Reached() ==> (j in q.calls <==> j in p.calls)
        ensures j >= p.Reached() ==> j < |nodes| && (j in q.calls <==> nodes[j].live)
      {
        CallsWithOneMore(p.calls, k, j);
      }
    }
  }

  /** The number of the event with which pass i goes past node k. */
  function ReachedAt(s: Sys, events: seq<Event>, i: nat, k: nat): (n: nat)
    ensures n <= |events|
    decreases |events|
  {
    if events == [] then 0
    else
      var t := Step(s, events[0]);
      if i in t.passes && k < t.passes[i].Reached() then 0 else 1 + ReachedAt(t, events[1..], i, k)
  }

  /** While pass i is on it only goes forward, and what it has called stays called. */
  lemma {:induction false} CallsAreFinal(s: Sys, events: seq<Event>, i: nat)
    requires Inv(s) && i in s.passes && EEnd(i) !in events
    ensures var t := Run(s, events);
      && Inv(t) && i in t.passes && Continues(s.nodes, t.nodes)
      && s.passes[i].calls <= t.passes[i].calls && s.passes[i].Reached() <= t.passes[i].Reached()
      && forall k :: 0 <= k < s.passes[i].Reached() ==> (k in t.passes[i].calls <==> k in s.passes[i].calls)
    decreases |events|
  {
    if events == [] {
    } else {
      StepOfPass(s, events[0], i);
      CallsAreFinal(Step(s, events[0]), events[1..], i);
      hide Inv, Step;
    }
  }

  /** Over any events, pass i calls a node that it goes past if and only if the node is live
      at the moment the pass gets there; and that is the case for a node of the list exactly
      if it was live and its subscription was not destroyed before that moment. */
  lemma {:induction false} CalledUnlessRemoved(s: Sys, events: seq<Event>, i: nat, k: nat)
    requires Inv(s) && i in s.passes && EEnd(i) !in events
    requires var t := Run(s, events); i in t.passes && s.passes[i].Reached() <= k < t.passes[i].Reached()
    ensures var n := ReachedAt(s, events, i, k);
      var before := Run(s, events[..n]);
      && n < |events| && events[n] == ENext(i) && k < |before.nodes|
      && (k in Run(s, events).passes[i].calls <==> before.nodes[k].live)
      && (k < |s.nodes| ==>
           (before.nodes[k].live <==> s.nodes[k].live && EUnsubscribe(s.nodes[k].id) !in events[..n]))
    decreases |events|
  {
    var e, rest, t := events[0], events[1..], Step(s, events[0]);
    var n := ReachedAt(s, events, i, k);
    StepOfPass(s, e, i);
    if k < t.passes[i].Reached() {
      CallsAreFinal(t, rest, i);
      assert events[..0] == [];
    } else {
      CalledUnlessRemoved(t, rest, i, k);
      FirstOf(s, events, n);
      hide Inv, Step, Continues, Run, ReachedAt;
    }
  }

  lemma FirstOf(s: Sys, events: seq<Event>, n: nat)
    requires 0 < n <= |events|
    ensures events[..n] == [events[0]] + events[1..][..n - 1]
    ensures Run(s, events[..n]) == Run(Step(s, events[0]), events[1..][..n - 1])
  {
    assert events[..n][1..] == events[1..][..n - 1];
  }

  /** A callback that is removed before the pass reaches it is never run by the pass. */
  lemma RemovedIsNotCalled(s: Sys, events: seq<Event>, i: nat, k: nat)
    requires Inv(s) && i in s.passes && EEnd(i) !in events
    requires s.passes[i].Reached() <= k < |s.nodes| && !s.nodes[k].live
    ensures i in Run(s, events).passes && k !in Run(s, events).passes[i].calls
  {
    CallsAreFinal(s, events, i);
    var t := Run(s, events);
    if k < t.passes[i].Reached() {
      CalledUnlessRemoved(s, events, i, k);
    } else {
      assert Accounted(t.nodes, t.passes[i]);
    }
  }

  /** A pass that begins in any state and has come to the end has called, once each and in
      order, exactly these: of the nodes that were in the list when it began, the live ones
      whose subscription was not destroyed before it got to them; and of those added since,
      the ones that were live when it got to them. */
  lemma CompletedPass(s: Sys, events: seq<Event>, i: nat)
    requires Inv(s) && i !in s.passes && EEnd(i) !in events
    requires var t := Run(Step(s, EBegin(i)), events); i in t.passes && t.passes[i].at.End?
    ensures var begun := Step(s, EBegin(i));
      var t := Run(begun, events);
      var p := t.passes[i];
      && Increasing(p.calls) && |s.nodes| <= p.ended <= |t.nodes|
      && (forall k :: k in p.calls ==> k < p.ended)
      && (forall k :: 0 <= k < |s.nodes| ==>
           (k in p.calls <==>
            s.nodes[k].live && EUnsubscribe(s.nodes[k].id) !in events[..ReachedAt(begun, events, i, k)]))
      && (forall k :: |s.nodes| <= k < p.ended ==>
           var before := Run(begun, events[..ReachedAt(begun, events, i, k)]);
           k < |before.nodes| && (k in p.calls <==> before.nodes[k].live))
  {
    var begun := Step(s, EBegin(i));
    StepKeepsInv(s, EBegin(i));
    CallsAreFinal(begun, events, i);
    EndIsKept(begun, events, i);
    var t := Run(begun, events);
    assert begun.passes[i].Reached() == 0 && begun.nodes == s.nodes;
    assert Accounted(t.nodes, t.passes[i]) && t.passes[i].Reached() == t.passes[i].ended;
    forall k | 0 <= k < t.passes[i].ended
      ensures var n := ReachedAt(begun, events, i, k);
        var before := Run(begun, events[..n]);
        && k < |before.nodes|
        && (k in t.passes[i].calls <==> before.nodes[k].live)
        && (k < |s.nodes| ==>
             (before.nodes[k].live <==> s.nodes[k].live && EUnsubscribe(s.nodes[k].id) !in events[..n]))
    {
      CalledUnlessRemoved(begun, events, i, k);
    }
  }

  /** While a pass is on, its iterator stays at the end once it is there; and if it is not
      yet there, it will meet the end behind every node that is in the list now. */
  lemma {:induction false} EndIsKept(s: Sys, events: seq<Event>, i: nat)
    requires Inv(s) && i in s.passes && EEnd(i) !in events
    ensures var t := Run(s, events);
      && i in t.passes && |s.nodes| <= |t.nodes|
      && (s.passes[i].at.End? ==> t.passes[i] == s.passes[i])
      && (s.passes[i].at.At? && t.passes[i].at.End? ==> t.passes[i].ended >= |s.nodes|)
    decreases |events|
  {
    if events == [] {
    } else {
      StepOfPass(s, events[0], i);
      EndIsKept(Step(s, events[0]), events[1..], i);
      hide Inv, Step;
    }
  }

  lemma OnlyPass(passes: map<nat, Pass>, i: nat)
    requires i in passes && |passes| == 1
    ensures forall j :: j in passes ==> j == i
  {
    assert |passes - {i}| == 0;
    forall j | j in passes
      ensures j == i
    {
      assert j == i || j in passes - {i};
    }
  }

  /** A callback that is added while a pass is on is reached by that pass (and called, unless
      it is removed first) if and only if the iterator does not stand at the end already, as
      it does while the last callback of the list is running. */
  lemma AddedDuringPass(s: Sys, id: nat, events: seq<Event>, i: nat)
    requires Inv(s) && Enabled(s, EAdd(id)) && i in s.passes && EEnd(i) !in events
    requires var t := Run(Apply(s, EAdd(id)), events); i in t.passes && t.passes[i].at.End?
    ensures var p := Run(Apply(s, EAdd(id)), events).passes[i];
      && (|s.nodes| < p.ended <==> s.passes[i].at.At?)
      && (|s.nodes| in p.calls || |s.nodes| in p.skipped <==> s.passes[i].at.At?)
  {
    var u := Apply(s, EAdd(id));
    ApplyKeepsInv(s, EAdd(id));
    EndIsKept(u, events, i);
    RunKeepsInv(u, events);
    var t := Run(u, events);
    assert Accounted(t.nodes, t.passes[i]) && Accounted(s.nodes, s.passes[i]);
    assert t.passes[i].Reached() == t.passes[i].ended;
    if s.passes[i].at.At? {
      assert u.passes[i].at.At? && |u.nodes| == |s.nodes| + 1;
    } else {
      assert t.passes[i] == s.passes[i] && s.passes[i].ended <= |s.nodes|;
    }
  }

  /** The only callback of a list adds a second one: the pass ends without calling it. */
  lemma AddedByLastIsNotCalled()
    ensures var s := Run(INITIAL, [EAdd(1), EBegin(0), ENext(0), EAdd(2), ENext(0)]);
      && s.nodes == [Node(1, true), Node(2, true)]
      && 0 in s.passes && s.passes[0].calls == [0] && Target(s.nodes, s.passes[0].at) == 2
  {
    var n1, n2 := [Node(1, true)], [Node(1, true), Node(2, true)];
    var s1 := Sys(n1, 0, map[]);
    var s2 := Sys(n1, 0, map[0 := Pass(At(0), [], {}, 0)]);
    var s3 := Sys(n1, 0, map[0 := Pass(End, [0], {}, 1)]);
    var s4 := Sys(n2, 0, map[0 := Pass(End, [0], {}, 1)]);
    assert Apply(INITIAL, EAdd(1)) == s1;
    assert Apply(s1, EBegin(0)) == s2;
    assert Apply(s2, ENext(0)) == s3 by {
      assert Range(0, 0) == {};
      assert [] + [0] == [0];
    }
    assert Apply(s3, EAdd(2)) == s4;
    assert Apply(s4, ENext(0)) == s4;
    var e := [EAdd(1), EBegin(0), ENext(0), EAdd(2), ENext(0)];
    assert e[1..][1..][1..][1..][1..] == [];
    assert Run(s4, e[1..][1..][1..][1..]) == Run(s4, []);
    assert Run(s3, e[1..][1..][1..]) == Run(s4, e[1..][1..][1..][1..]);
    assert Run(s2, e[1..][1..]) == Run(s3, e[1..][1..][1..]);
    assert Run(s1, e[1..]) == Run(s2, e[1..][1..]);
  }

  // ----- the abstract list, and the removal callback

  lemma {:induction false} LiveAppend(s: seq<Node>, n: Node)
    ensures Live(s + [n]) == Live(s) + if n.live then [n.id] else []
  {
    if s == [] {
      assert s + [n] == [n] && [n][1..] == [];
    } else {
      assert (s + [n])[1..] == s[1..] + [n];
      LiveAppend(s[1..], n);
      var first, last := if s[0].live then [s[0].id] else [], if n.live then [n.id] else [];
      assert first + (Live(s[1..]) + last) == first + Live(s[1..]) + last;
    }
  }

  lemma {:induction false} LiveCompacted(s: seq<Node>)
    ensures Live(Compacted(s)) == Live(s)
  {
    if s == [] {
    } else {
      LiveCompacted(s[1..]);
      if s[0].live {
        assert Compacted(s)[1..] == Compacted(s[1..]);
      }
    }
  }

  lemma FirstIsRemoved(s: seq<Node>, id: nat)
    requires DistinctIds(s) && s != [] && s[0].id == id
    ensures Without(Live(s), id) == Live(s[1..])
  {
    if s[0].live {
      assert Live(s)[1..] == Live(s[1..]);
    } else {
      assert Live(s) == Live(s[1..]);
      NotLive(s[1..], id);
    }
  }

  // Where a destroyed subscription leaves the live ones, at either kind of removal.
  lemma {:induction false} LiveReset(s: seq<Node>, id: nat)
    requires DistinctIds(s) && IndexOf(s, id) < |s|
    ensures Live(s[IndexOf(s, id) := Node(id, false)]) == Without(Live(s), id)
  {
    var k := IndexOf(s, id);
    var t := s[k := Node(id, false)];
    if k == 0 {
      assert t[1..] == s[1..];
      FirstIsRemoved(s, id);
      assert Live(t) == Live(s[1..]);
    } else {
      LiveReset(s[1..], id);
      LiveCons(s, id);
      assert t[0] == s[0] && t[1..] == s[1..][k - 1 := Node(id, false)];
    }
  }

  lemma {:induction false} LiveErased(s: seq<Node>, id: nat)
    requires DistinctIds(s) && IndexOf(s, id) < |s|
    ensures var k := IndexOf(s, id); Live(s[..k] + s[k + 1..]) == Without(Live(s), id)
  {
    var k := IndexOf(s, id);
    var t := s[..k] + s[k + 1..];
    if k == 0 {
      assert t == s[1..];
      FirstIsRemoved(s, id);
    } else {
      LiveErased(s[1..], id);
      LiveCons(s, id);
      assert t[0] == s[0] && t[1..] == s[1..][..k - 1] + s[1..][k..];
    }
  }

  lemma LiveCons(s: seq<Node>, id: nat)
    requires s != [] && s[0].id != id
    ensures Without(Live(s), id) == (if s[0].live then [s[0].id] else []) + Without(Live(s[1..]), id)
  {
    if s[0].live {
      assert Live(s)[1..] == Live(s[1..]);
    } else {
      assert Live(s) == Live(s[1..]);
    }
  }

  lemma {:induction false} NotLive(s: seq<Node>, id: nat)
    requires forall k :: 0 <= k < |s| ==> s[k].id != id
    ensures Without(Live(s), id) == Live(s)
  {
    if s == [] {
    } else {
      NotLive(s[1..], id);
      LiveCons(s, id);
    }
  }

  function Subscribed(list: seq<nat>, e: Event): seq<nat> {
    match e
    case EAdd(id) => list + [id]
    case EUnsubscribe(id) => Without(list, id)
    case _ => list
  }

  /** Each event does to the live subscriptions what its name says; passes do not change
      them, and when the last one ends the list is compacted to exactly the live ones. The
      removal callback runs once for a removal outside passes, and once for a compaction
      that drops anything. */
  lemma EventsRefine(s: Sys, e: Event)
    requires Inv(s) && Enabled(s, e)
    ensures var t := Apply(s, e);
      && Live(t.nodes) == Subscribed(Live(s.nodes), e)
      && (t.passes == map[] ==>
            && |t.nodes| == |Live(t.nodes)|
            && forall k :: 0 <= k < |t.nodes| ==> t.nodes[k] == Node(Live(t.nodes)[k], true))
      && t.signals - s.signals ==
           (if e.EUnsubscribe? && s.passes == map[] && IndexOf(s.nodes, e.id) < |s.nodes| then 1
            else if e.EEnd? && t.passes == map[] && !AllLive(s.nodes) then 1
            else 0)
  {
    var t := Apply(s, e);
    hide Live, Without, Compacted;
    match e {
      case EAdd(id) => LiveAppend(s.nodes, Node(id, true));
      case EUnsubscribe(id) =>
        if IndexOf(s.nodes, id) < |s.nodes| {
          LiveReset(s.nodes, id);
          LiveErased(s.nodes, id);
        } else {
          NotLive(s.nodes, id);
        }
        assert |s.passes| == 0 <==> s.passes == map[];
      case EEnd(pass) =>
        LiveCompacted(s.nodes);
        assert t.passes == map[] <==> |s.passes| == 1 by { assert |t.passes| == |s.passes| - 1; }
      case _ =>
    }
    if t.passes == map[] {
      ApplyKeepsInv(s, e);
      AllLiveIsLive(t.nodes);
    }
  }

  lemma {:induction false} AllLiveIsLive(s: seq<Node>)
    requires AllLive(s)
    ensures |s| == |Live(s)| && forall k :: 0 <= k < |s| ==> s[k] == Node(Live(s)[k], true)
  {
    if s == [] {
    } else {
      AllLiveIsLive(s[1..]);
    }
  }

  // Events that all can happen: a node that is added is none of those in the list, and only
  // passes that are on go on or end.
  predicate EnabledRun(s: Sys, events: seq<Event>)
    decreases |events|
  {
    events == [] || (Enabled(s, events[0]) && EnabledRun(Apply(s, events[0]), events[1..]))
  }

  // The subscriptions after some events, as a list that is only added to and removed from.
  function SubscribedAfter(list: seq<nat>, events: seq<Event>): seq<nat>
    decreases |events|
  {
    if events == [] then list else SubscribedAfter(Subscribed(list, events[0]), events[1..])
  }

  /** After any events the live nodes are the subscriptions that were made and not destroyed. */
  lemma {:induction false} RunKeepsSubscribed(s: Sys, events: seq<Event>)
    requires Inv(s) && EnabledRun(s, events)
    ensures Live(Run(s, events).nodes) == SubscribedAfter(Live(s.nodes), events)
    decreases |events|
  {
    if events == [] {
    } else {
      EventsRefine(s, events[0]);
      ApplyKeepsInv(s, events[0]);
      RunKeepsSubscribed(Apply(s, events[0]), events[1..]);
    }
  }

  /** After any events that leave no pass on, the list that began empty is exactly the
      subscriptions, in order, each live and there once. */
  lemma ListAfterPasses(events: seq<Event>)
    requires EnabledRun(INITIAL, events) && Run(INITIAL, events).passes == map[]
    ensures var nodes, live := Run(INITIAL, events).nodes, SubscribedAfter([], events);
      && |nodes| == |live|
      && (forall k :: 0 <= k < |live| ==> nodes[k] == Node(live[k], true))
      && (forall i, k :: 0 <= i < k < |live| ==> live[i] != live[k])
  {
    RunKeepsInv(INITIAL, events);
    RunKeepsSubscribed(INITIAL, events);
    AllLiveIsLive(Run(INITIAL, events).nodes);
  }
}
