/** What scripts of re-entrant callbacks do to a list of base/callback_list.h and which
    callbacks a notification runs, as functions; and that they are runs of single events. */
module CallbackScripts {
  import opened CallbackListPasses
  import opened CallbackListSpec
  import opened Positions

  // What callbacks do: in a notification, the k-th callback that is called carries out the
  // k-th body, and callbacks beyond the last body do nothing.
  datatype Op = OpAdd(id: nat) | OpUnsubscribe(id: nat) | OpNotify(bodies: Bodies)

  datatype Bodies = NoBody | Body(ops: Script, rest: Bodies) {
    function Ops(): Script { if NoBody? then Stop else ops }

    function Rest(): Bodies { if NoBody? then NoBody else rest }
  }

  datatype Script = Stop | Do(op: Op, rest: Script)

  // ----- the meaning of scripts

  /** The state after the operations. A new node is none of those in the list. */
  ghost function Perform(s: Sys, ops: Script): (t: Sys)
    requires Inv(s)
    ensures Inv(t) && t.passes == s.passes && (s.passes != map[] ==> Continues(s.nodes, t.nodes))
    decreases ops
  {
    match ops
    case Stop => s
    case Do(op, rest) =>
      var t := PerformOne(s, op);
      ContinuesOn(s.nodes, t.nodes, Perform(t, rest).nodes);
      Perform(t, rest)
  }

  ghost function PerformOne(s: Sys, op: Op): (t: Sys)
    requires Inv(s)
    ensures Inv(t) && t.passes == s.passes && (s.passes != map[] ==> Continues(s.nodes, t.nodes))
    decreases op
  {
    match op
    case OpAdd(id) => StepKeepsInv(s, EAdd(id)); Step(s, EAdd(id))
    case OpUnsubscribe(id) =>
      StepKeepsInv(s, EUnsubscribe(id));
      UnsubscribeContinues(s, id);
      Step(s, EUnsubscribe(id))
    case OpNotify(bodies) => Notify(s, bodies)
  }

  /** The state after a notification. */
  ghost function Notify(s: Sys, bodies: Bodies): (t: Sys)
    requires Inv(s)
    ensures Inv(t) && t.passes == s.passes && (s.passes != map[] ==> Continues(s.nodes, t.nodes))
    decreases bodies, 2
  {
    var i := Fresh(s.passes.Keys);
    StepKeepsInv(Notified(s, bodies), EEnd(i));
    EndsToo(s, Notified(s, bodies), i);
    Step(Notified(s, bodies), EEnd(i))
  }

  /** The notification up to the GetNext that returns NULL; its pass is still on. */
  ghost function Notified(s: Sys, bodies: Bodies): (t: Sys)
    requires Inv(s)
    ensures Inv(t) && Continues(s.nodes, t.nodes) && Fresh(s.passes.Keys) in t.passes
    ensures t.passes - {Fresh(s.passes.Keys)} == s.passes
    ensures t.passes[Fresh(s.passes.Keys)].at.End?
    decreases bodies, 1
  {
    var i := Fresh(s.passes.Keys);
    StepKeepsInv(s, EBegin(i));
    Passing(Step(s, EBegin(i)), i, bodies)
  }

  // The next GetNext returns NULL.
  ghost predicate AtEnd(s: Sys, i: nat) {
    i in s.passes && InBounds(s.nodes, s.passes[i]) && Target(s.nodes, s.passes[i].at) == |s.nodes|
  }

  /** From a GetNext of pass i on, to the one that returns NULL. */
  ghost function Passing(s: Sys, i: nat, bodies: Bodies): (t: Sys)
    requires Inv(s) && i in s.passes
    ensures Inv(t) && i in t.passes && t.passes - {i} == s.passes - {i} && Continues(s.nodes, t.nodes)
    ensures t.passes[i].at.End?
    decreases bodies, 0, Left(s, i)
  {
    GetNextKeeps(s, i);
    var t := Step(s, ENext(i));
    if AtEnd(s, i) then t
    else
      match bodies
      case NoBody => Passing(t, i, NoBody)
      case Body(ops, rest) =>
        var u := Perform(t, ops);
        ContinuesOn(t.nodes, u.nodes, Passing(u, i, rest).nodes);
        Passing(u, i, rest)
  }

  ghost function Left(s: Sys, i: nat): nat {
    if i in s.passes && s.passes[i].at.At? && s.passes[i].at.k < |s.nodes| then |s.nodes| - s.passes[i].at.k else 0
  }

  // The callbacks that the notification runs, in the order in which it does.
  ghost function Called(s: Sys, bodies: Bodies): seq<nat>
    requires Inv(s)
  {
    var i, t := Fresh(s.passes.Keys), Notified(s, bodies);
    CallsAreNodes(t, i);
    Ids(t.nodes, t.passes[i].calls)
  }

  ghost predicate AreNodes(nodes: seq<Node>, calls: seq<nat>) {
    forall j :: 0 <= j < |calls| ==> calls[j] < |nodes|
  }

  ghost function Ids(nodes: seq<Node>, calls: seq<nat>): seq<nat>
    requires AreNodes(nodes, calls)
  {
    seq(|calls|, j requires 0 <= j < |calls| => nodes[calls[j]].id)
  }

  lemma CallsAreNodes(s: Sys, i: nat)
    requires Inv(s) && i in s.passes
    ensures InBounds(s.nodes, s.passes[i]) && AreNodes(s.nodes, s.passes[i].calls)
  {
    assert Accounted(s.nodes, s.passes[i]);
    forall j | 0 <= j < |s.passes[i].calls|
      ensures s.passes[i].calls[j] < |s.nodes|
    {
      assert s.passes[i].calls[j] in s.passes[i].calls;
    }
  }

  lemma ContinuesOn(s: seq<Node>, t: seq<Node>, u: seq<Node>)
    ensures Continues(s, t) && Continues(t, u) ==> Continues(s, u)
  {
  }

  lemma UnsubscribeContinues(s: Sys, id: nat)
    ensures s.passes != map[] ==> Continues(s.nodes, Step(s, EUnsubscribe(id)).nodes)
  {
    if s.passes != map[] {
      NodesContinue(s, EUnsubscribe(id));
    }
  }

  lemma EndsToo(s: Sys, t: Sys, i: nat)
    requires i in t.passes && t.passes - {i} == s.passes && i !in s.passes
    ensures Step(t, EEnd(i)).passes == s.passes
    ensures s.passes != map[] && Continues(s.nodes, t.nodes) ==> Continues(s.nodes, Step(t, EEnd(i)).nodes)
  {
    if s.passes != map[] {
      assert |t.passes| == |t.passes - {i}| + 1;
      assert |s.passes| > 0;
    }
  }

  lemma GetNextKeeps(s: Sys, i: nat)
    requires Inv(s) && i in s.passes
    ensures InBounds(s.nodes, s.passes[i])
    ensures var t := Step(s, ENext(i));
      && Inv(t) && t.nodes == s.nodes && i in t.passes && t.passes - {i} == s.passes - {i}
      && t.AsList() == s.AsList() && t.passes[i] == Advanced(s.nodes, s.passes[i])
      && (AtEnd(s, i) ==> t.passes[i].at.End?)
      && (!AtEnd(s, i) ==> Left(t, i) < Left(s, i))
  {
    StepKeepsInv(s, ENext(i));
    CallsAreNodes(s, i);
  }

  // ----- scripts are runs of events

  // The events end and advance no pass that is on at their start.
  ghost predicate LeavesPasses(trace: seq<Event>, passes: map<nat, Pass>) {
    forall n :: 0 <= n < |trace| && (trace[n].EEnd? || trace[n].ENext?) ==> trace[n].pass !in passes
  }

  lemma LeavesTogether(a: seq<Event>, b: seq<Event>, passes: map<nat, Pass>)
    requires LeavesPasses(a, passes) && LeavesPasses(b, passes)
    ensures LeavesPasses(a + b, passes)
  {
  }

  lemma LeavesFewer(trace: seq<Event>, passes: map<nat, Pass>, i: nat)
    requires LeavesPasses(trace, passes)
    ensures LeavesPasses(trace, passes - {i}) && (i in passes ==> EEnd(i) !in trace)
  {
  }

  lemma {:induction false} RunThenRun(s: Sys, events: seq<Event>, more: seq<Event>)
    ensures Run(s, events + more) == Run(Run(s, events), more)
    decreases |events|
  {
    if events == [] {
      assert [] + more == more;
    } else {
      assert (events + more)[1..] == events[1..] + more;
      RunThenRun(Step(s, events[0]), events[1..], more);
    }
  }

  lemma RunOne(s: Sys, e: Event)
    ensures Run(s, [e]) == Step(s, e)
  {
    assert [e][1..] == [];
  }

  /** Whatever callbacks do is a run of single events that leaves the passes of the callers
      alone. */
  lemma {:induction false} PerformIsRun(s: Sys, ops: Script) returns (trace: seq<Event>)
    requires Inv(s)
    ensures Run(s, trace) == Perform(s, ops) && LeavesPasses(trace, s.passes)
    decreases ops
  {
    match ops {
      case Stop =>
        trace := [];
      case Do(op, rest) =>
        var t := PerformOne(s, op);
        var first := PerformOneIsRun(s, op);
        var more := PerformIsRun(t, rest);
        RunThenRun(s, first, more);
        trace := first + more;
    }
  }

  lemma {:induction false} PerformOneIsRun(s: Sys, op: Op) returns (trace: seq<Event>)
    requires Inv(s)
    ensures Run(s, trace) == PerformOne(s, op) && LeavesPasses(trace, s.passes)
    decreases op
  {
    match op {
      case OpAdd(id) =>
        RunOne(s, EAdd(id));
        trace := [EAdd(id)];
      case OpUnsubscribe(id) =>
        RunOne(s, EUnsubscribe(id));
        trace := [EUnsubscribe(id)];
      case OpNotify(bodies) =>
        var during := NotifyIsPass(s, bodies);
        trace := BetweenBeginAndEnd(s, Fresh(s.passes.Keys), during, Notified(s, bodies));
    }
  }

  lemma BetweenBeginAndEnd(s: Sys, i: nat, during: seq<Event>, t: Sys) returns (trace: seq<Event>)
    requires i !in s.passes && Run(Step(s, EBegin(i)), during) == t && LeavesPasses(during, s.passes)
    ensures Run(s, trace) == Step(t, EEnd(i)) && LeavesPasses(trace, s.passes)
  {
    hide Step, Run;
    RunThenRun(s, [EBegin(i)] + during, [EEnd(i)]);
    RunThenRun(s, [EBegin(i)], during);
    RunOne(s, EBegin(i));
    RunOne(t, EEnd(i));
    trace := [EBegin(i)] + during + [EEnd(i)];
  }

  /** A notification is one pass: its first event begins the pass, its last one ends it when
      GetNext has returned NULL, and nothing in between does. */
  lemma {:induction false} NotifyIsPass(s: Sys, bodies: Bodies) returns (during: seq<Event>)
    requires Inv(s)
    ensures var i := Fresh(s.passes.Keys);
      && Run(Step(s, EBegin(i)), during) == Notified(s, bodies)
      && EEnd(i) !in during && LeavesPasses(during, s.passes)
    decreases bodies, 1
  {
    var i := Fresh(s.passes.Keys);
    StepKeepsInv(s, EBegin(i));
    during := PassingIsRun(Step(s, EBegin(i)), i, bodies);
    assert LeavesPasses(during, s.passes);
  }

  lemma {:induction false} PassingIsRun(s: Sys, i: nat, bodies: Bodies) returns (trace: seq<Event>)
    requires Inv(s) && i in s.passes
    ensures Run(s, trace) == Passing(s, i, bodies) && EEnd(i) !in trace && LeavesPasses(trace, s.passes - {i})
    decreases bodies, 0, Left(s, i)
  {
    GetNextKeeps(s, i);
    var t := Step(s, ENext(i));
    RunOne(s, ENext(i));
    trace := [ENext(i)];
    if !AtEnd(s, i) {
      var more: seq<Event>;
      match bodies {
        case NoBody =>
          more := PassingIsRun(t, i, NoBody);
        case Body(ops, rest) =>
          var u := Perform(t, ops);
          var body := PerformIsRun(t, ops);
          more := PassingIsRun(u, i, rest);
          RunThenRun(t, body, more);
          LeavesFewer(body, t.passes, i);
          hide LeavesPasses;
          LeavesTogether(body, more, s.passes - {i});
          more := body + more;
      }
      hide LeavesPasses;
      RunThenRun(s, trace, more);
      OneLeaves(i, s.passes - {i});
      LeavesTogether(trace, more, s.passes - {i});
      trace := trace + more;
    }
  }

  lemma OneLeaves(i: nat, passes: map<nat, Pass>)
    requires i !in passes
    ensures LeavesPasses([ENext(i)], passes)
  {
  }

  /** A notification runs, once each and in the order of the list, exactly these callbacks: of
      the nodes that were in the list when it began, the live ones whose subscription was not
      destroyed, by whatever callback, before the notification got to them; and of those
      added since, the ones that were live when it got to them. */
  lemma NotifyCalls(s: Sys, bodies: Bodies) returns (during: seq<Event>)
    requires Inv(s)
    ensures var i, t := Fresh(s.passes.Keys), Notified(s, bodies);
      var begun := Step(s, EBegin(i));
      && Run(begun, during) == t && EEnd(i) !in during
      && Increasing(t.passes[i].calls) && |s.nodes| <= t.passes[i].ended
      && AreNodes(t.nodes, t.passes[i].calls) && Called(s, bodies) == Ids(t.nodes, t.passes[i].calls)
      && (forall k :: 0 <= k < |s.nodes| ==>
           t.nodes[k].id == s.nodes[k].id
           && (k in t.passes[i].calls <==>
               s.nodes[k].live && EUnsubscribe(s.nodes[k].id) !in during[..ReachedAt(begun, during, i, k)]))
      && (forall k :: |s.nodes| <= k < t.passes[i].ended ==>
           var before := Run(begun, during[..ReachedAt(begun, during, i, k)]);
           k < |before.nodes| && (k in t.passes[i].calls <==> before.nodes[k].live))
  {
    var i := Fresh(s.passes.Keys);
    during := NotifyIsPass(s, bodies);
    CompletedPass(s, during, i);
    CallsAreNodes(Notified(s, bodies), i);
  }
}
