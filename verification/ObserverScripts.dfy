/** What scripts of re-entrant callbacks do to a list of base/observer_list.h and which
    observers a pass calls, as functions; and that they are runs of single events. */
module ObserverScripts {
  import opened ObserverListSpec
  import opened ObserverPasses
  import opened Options
  import opened Positions

  // What callbacks do: in a notification, the k-th callback that is called carries out the
  // k-th body, and callbacks beyond the last body do nothing.
  datatype Op = OpAdd(o: nat) | OpRemove(o: nat) | OpClear | OpDestroy | OpNotify(bodies: Bodies)

  datatype Bodies = NoBody | Body(ops: Script, rest: Bodies) {
    function Ops(): Script { if NoBody? then Stop else ops }

    function Rest(): Bodies { if NoBody? then NoBody else rest }
  }

  datatype Script = Stop | Do(op: Op, rest: Script)

  // The event that an operation is, other than a notification.
  function EventOf(op: Op): Event
    requires !op.OpNotify?
  {
    match op
    case OpAdd(o) => EAdd(o)
    case OpRemove(o) => ERemove(o)
    case OpClear => EClear
    case OpDestroy => EDestroy
  }

  // ----- the meaning of scripts

  // What a piece of code between two calls of GetNext leaves as it was.
  ghost predicate Kept(s: Sys, t: Sys) {
    && Inv(t) && t.passes == s.passes && t.existingOnly == s.existingOnly
    && (s.passes != map[] ==> Continues(s.slots, t.slots))
    && (!s.alive ==> !t.alive)
  }

  /** The state after the operations; there are none on a list that has been destroyed. */
  ghost function Perform(s: Sys, ops: Script): (t: Sys)
    requires Inv(s)
    ensures Kept(s, t)
    decreases ops
  {
    if !s.alive then s
    else
      match ops
      case Stop => s
      case Do(op, rest) =>
        var t := PerformOne(s, op);
        ContinuesOn(s.slots, t.slots, Perform(t, rest).slots);
        Perform(t, rest)
  }

  ghost function PerformOne(s: Sys, op: Op): (t: Sys)
    requires Inv(s) && s.alive
    ensures Kept(s, t)
    decreases op
  {
    match op
    case OpNotify(bodies) => Notify(s, bodies)
    case _ =>
      StepIsKept(s, EventOf(op));
      Step(s, EventOf(op))
  }

  /** The state after FOR_EACH_OBSERVER. */
  ghost function Notify(s: Sys, bodies: Bodies): (t: Sys)
    requires Inv(s) && s.alive
    ensures Kept(s, t)
    decreases bodies, 2
  {
    if s.slots == [] then s  // might_have_observers
    else
      var i := Fresh(s.passes.Keys);
      StepKeepsInv(Notified(s, bodies), EEnd(i));
      EndsToo(s, Notified(s, bodies), i);
      Step(Notified(s, bodies), EEnd(i))
  }

  /** The pass up to the GetNext that returns null; it is still on. */
  ghost function Notified(s: Sys, bodies: Bodies): (t: Sys)
    requires Inv(s) && s.alive
    ensures Inv(t) && Continues(s.slots, t.slots) && t.existingOnly == s.existingOnly
    ensures Fresh(s.passes.Keys) in t.passes && t.passes - {Fresh(s.passes.Keys)} == s.passes
    ensures Over(t, Fresh(s.passes.Keys))
    decreases bodies, 1
  {
    var i := Fresh(s.passes.Keys);
    StepKeepsInv(s, EBegin(i));
    Passing(Step(s, EBegin(i)), i, bodies)
  }

  // The pass has come to its limit, or its list has been destroyed.
  ghost predicate Over(s: Sys, i: nat) {
    i in s.passes && (s.alive ==> s.passes[i].it.index == Limit(s.AsList(), s.passes[i].it))
  }

  // The next GetNext returns null.
  ghost predicate ReturnsNull(s: Sys, i: nat) {
    i in s.passes && (s.alive ==> AtEnd(s.AsList(), s.passes[i].it))
  }

  /** From a GetNext of pass i on, to the one that returns null. */
  ghost function Passing(s: Sys, i: nat, bodies: Bodies): (t: Sys)
    requires Inv(s) && i in s.passes
    ensures Inv(t) && i in t.passes && t.passes - {i} == s.passes - {i}
    ensures Continues(s.slots, t.slots) && t.existingOnly == s.existingOnly && (!s.alive ==> !t.alive)
    ensures Over(t, i)
    decreases bodies, 0, Left(s, i)
  {
    GetNextKeeps(s, i);
    var t := Step(s, ENext(i));
    if ReturnsNull(s, i) then t
    else
      match bodies
      case NoBody => Passing(t, i, NoBody)
      case Body(ops, rest) =>
        var u := Perform(t, ops);
        ContinuesOn(t.slots, u.slots, Passing(u, i, rest).slots);
        Passing(u, i, rest)
  }

  ghost function Left(s: Sys, i: nat): nat {
    if i in s.passes && s.passes[i].it.index <= |s.slots| then |s.slots| - s.passes[i].it.index else 0
  }

  // The observers that the notification calls, in order.
  ghost function Called(s: Sys, bodies: Bodies): seq<nat>
    requires Inv(s) && s.alive
  {
    if s.slots == [] then [] else Notified(s, bodies).passes[Fresh(s.passes.Keys)].observers
  }

  lemma ContinuesOn(s: Slots, t: Slots, u: Slots)
    ensures Continues(s, t) && Continues(t, u) ==> Continues(s, u)
  {
  }

  lemma StepIsKept(s: Sys, e: Event)
    requires Inv(s) && s.alive && !e.EBegin? && !e.ENext? && !e.EEnd?
    ensures Kept(s, Step(s, e))
  {
    StepKeepsInv(s, e);
    if s.passes != map[] {
      var i :| i in s.passes;
      SlotsStay(s, e, i);
    }
  }

  lemma EndsToo(s: Sys, t: Sys, i: nat)
    requires i in t.passes && t.passes - {i} == s.passes && i !in s.passes
    ensures var u := Step(t, EEnd(i));
      && u.passes == s.passes && u.existingOnly == t.existingOnly && u.alive == t.alive
      && (s.passes != map[] && Continues(s.slots, t.slots) ==> Continues(s.slots, u.slots))
  {
    if s.passes != map[] {
      assert |t.passes| == |t.passes - {i}| + 1;
      assert |s.passes| > 0;
    }
  }

  lemma GetNextKeeps(s: Sys, i: nat)
    requires Inv(s) && i in s.passes
    ensures var t := Step(s, ENext(i));
      && Inv(t) && t.slots == s.slots && t.alive == s.alive && t.existingOnly == s.existingOnly
      && i in t.passes && t.passes - {i} == s.passes - {i} && t.AsList() == s.AsList()
      && (ReturnsNull(s, i) ==> Over(t, i))
      && (!ReturnsNull(s, i) ==> Left(t, i) < Left(s, i))
      && t.passes[i] == if s.alive then Advanced(s.AsList(), s.passes[i]) else s.passes[i]
  {
    StepKeepsInv(s, ENext(i));
    if s.alive {
      TargetBounds(s.AsList(), s.passes[i]);
    }
    hide Accounted, WellFormed;
  }

  // ----- scripts are runs of events

  // The events end and advance no pass that is on at their start.
  ghost predicate LeavesPasses(trace: seq<Event>, passes: map<nat, Pass>) {
    forall n :: 0 <= n < |trace| && (trace[n].EEnd? || trace[n].ENext?) ==> trace[n].pass !in passes
  }

  lemma LeavesTogether(a: seq<Event>, b: seq<Event>, passes: map<nat, Pass>)
    requires LeavesPasses(a, passes) && LeavesPasses(b, passes)
    ensures LeavesPasses(a + b, passes)
  {
  }

  lemma LeavesFewer(trace: seq<Event>, passes: map<nat, Pass>, i: nat)
    requires LeavesPasses(trace, passes)
    ensures LeavesPasses(trace, passes - {i}) && (i in passes ==> EEnd(i) !in trace)
  {
  }

  lemma {:induction false} RunThenRun(s: Sys, events: seq<Event>, more: seq<Event>)
    ensures Run(s, events + more) == Run(Run(s, events), more)
    decreases |events|
  {
    if events == [] {
      assert [] + more == more;
    } else {
      assert (events + more)[1..] == events[1..] + more;
      RunThenRun(Step(s, events[0]), events[1..], more);
    }
  }

  lemma RunOne(s: Sys, e: Event)
    ensures Run(s, [e]) == Step(s, e)
  {
    assert [e][1..] == [];
  }

  /** Whatever callbacks do is a run of single events that leaves the passes of the callers
      alone. */
  lemma {:induction false} PerformIsRun(s: Sys, ops: Script) returns (trace: seq<Event>)
    requires Inv(s)
    ensures Run(s, trace) == Perform(s, ops) && LeavesPasses(trace, s.passes)
    decreases ops
  {
    trace := [];
    if !s.alive || ops.Stop? {
    } else {
      var t := PerformOne(s, ops.op);
      var first := PerformOneIsRun(s, ops.op);
      var more := PerformIsRun(t, ops.rest);
      RunThenRun(s, first, more);
      trace := first + more;
    }
  }

  lemma {:induction false} PerformOneIsRun(s: Sys, op: Op) returns (trace: seq<Event>)
    requires Inv(s) && s.alive
    ensures Run(s, trace) == PerformOne(s, op) && LeavesPasses(trace, s.passes)
    decreases op
  {
    if !op.OpNotify? {
      RunOne(s, EventOf(op));
      trace := [EventOf(op)];
    } else if s.slots == [] {
      trace := [];
    } else {
      var during := NotifyIsPass(s, op.bodies);
      trace := BetweenBeginAndEnd(s, Fresh(s.passes.Keys), during, Notified(s, op.bodies));
    }
  }

  lemma BetweenBeginAndEnd(s: Sys, i: nat, during: seq<Event>, t: Sys) returns (trace: seq<Event>)
    requires i !in s.passes && Run(Step(s, EBegin(i)), during) == t && LeavesPasses(during, s.passes)
    ensures Run(s, trace) == Step(t, EEnd(i)) && LeavesPasses(trace, s.passes)
  {
    hide Step, Run;
    RunThenRun(s, [EBegin(i)] + during, [EEnd(i)]);
    RunThenRun(s, [EBegin(i)], during);
    RunOne(s, EBegin(i));
    RunOne(t, EEnd(i));
    trace := [EBegin(i)] + during + [EEnd(i)];
  }

  /** A notification is one pass: its first event begins the pass, its last one ends it when
      GetNext has returned null, and nothing in between does. */
  lemma {:induction false} NotifyIsPass(s: Sys, bodies: Bodies) returns (during: seq<Event>)
    requires Inv(s) && s.alive
    ensures var i := Fresh(s.passes.Keys);
      && Run(Step(s, EBegin(i)), during) == Notified(s, bodies)
      && EEnd(i) !in during && LeavesPasses(during, s.passes)
    decreases bodies, 1
  {
    var i := Fresh(s.passes.Keys);
    StepKeepsInv(s, EBegin(i));
    during := PassingIsRun(Step(s, EBegin(i)), i, bodies);
    assert LeavesPasses(during, s.passes);
  }

  lemma {:induction false} PassingIsRun(s: Sys, i: nat, bodies: Bodies) returns (trace: seq<Event>)
    requires Inv(s) && i in s.passes
    ensures Run(s, trace) == Passing(s, i, bodies) && EEnd(i) !in trace && LeavesPasses(trace, s.passes - {i})
    decreases bodies, 0, Left(s, i)
  {
    GetNextKeeps(s, i);
    var t := Step(s, ENext(i));
    RunOne(s, ENext(i));
    trace := [ENext(i)];
    if !ReturnsNull(s, i) {
      var more: seq<Event>;
      match bodies {
        case NoBody =>
          more := PassingIsRun(t, i, NoBody);
        case Body(ops, rest) =>
          var u := Perform(t, ops);
          var body := PerformIsRun(t, ops);
          more := PassingIsRun(u, i, rest);
          RunThenRun(t, body, more);
          LeavesFewer(body, t.passes, i);
          hide LeavesPasses;
          LeavesTogether(body, more, s.passes - {i});
          more := body + more;
      }
      hide LeavesPasses;
      RunThenRun(s, trace, more);
      OneLeaves(i, s.passes - {i});
      LeavesTogether(trace, more, s.passes - {i});
      trace := trace + more;
    }
  }

  lemma OneLeaves(i: nat, passes: map<nat, Pass>)
    requires i !in passes
    ensures LeavesPasses([ENext(i)], passes)
  {
  }

  /** A notification of a list that is not destroyed calls, once each and in the order of the
      list, exactly these observers: of those registered when it began, the ones that no
      callback removed before it got to them; and, unless existing observers only are
      notified, of those added since the ones that were registered when it got to them. */
  lemma NotifyCalls(s: Sys, bodies: Bodies) returns (during: seq<Event>)
    requires Inv(s) && s.alive && Notified(s, bodies).alive
    ensures var i, t := Fresh(s.passes.Keys), Notified(s, bodies);
      var begun, p := Step(s, EBegin(i)), t.passes[i];
      && Run(begun, during) == t && EEnd(i) !in during
      && p.it.index == (if s.existingOnly then |s.slots| else |t.slots|)
      && Increasing(p.calls) && (forall k :: k in p.calls ==> k < p.it.index)
      && (s.slots != [] ==> Called(s, bodies) == p.observers) && |p.observers| == |p.calls|
      && (forall k :: 0 <= k < |s.slots| ==>
           (k in p.calls <==>
            s.slots[k] != None && NotRemoved(during[..ReachedAt(begun, during, i, k)], s.slots[k].value)))
      && (forall j :: 0 <= j < |p.calls| && p.calls[j] < |s.slots| ==> s.slots[p.calls[j]] == Some(p.observers[j]))
      && (forall k :: |s.slots| <= k < p.it.index ==>
           var before := Run(begun, during[..ReachedAt(begun, during, i, k)]);
           k < |before.slots| && (k in p.calls <==> before.slots[k] != None))
  {
    during := NotifyIsPass(s, bodies);
    CompletedPass(s, during, Fresh(s.passes.Keys));
  }
}
