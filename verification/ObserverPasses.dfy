/** Any interleaving of additions, removals, clearings and passes over one observer list:
    which registrations a pass calls. While a pass is on, slots are neither moved nor reused,
    so a registration is known by its position. */
module ObserverPasses {
  import opened ObserverListSpec
  import opened Options
  import opened Positions

  // A live iterator and its history: how many slots there were when it started, the
  // positions it has called and the observers there, and the positions that were null when
  // it came to them.
  datatype Pass = Pass(it: Iter, start: nat, calls: seq<nat>, observers: seq<nat>, skipped: set<nat>)

  // The list, if it is alive, and the iterators on it, under names of their own.
  datatype Sys = Sys(slots: Slots, existingOnly: bool, passes: map<nat, Pass>, alive: bool) {
    function AsList(): List { List(slots, |passes|, existingOnly) }
  }

  datatype Event =
    | EAdd(o: nat)
    | ERemove(o: nat)
    | EClear
    | EDestroy
    | EBegin(pass: nat)
    | ENext(pass: nat)
    | EEnd(pass: nat)

  // A list that has been destroyed is no longer used, but by the iterators on it.
  predicate Enabled(s: Sys, e: Event) {
    match e
    case EBegin(i) => s.alive && i !in s.passes
    case ENext(i) => i in s.passes
    case EEnd(i) => i in s.passes
    case _ => s.alive
  }

  // The position to which GetNext moves an iterator.
  function Target(list: List, it: Iter): (k: nat)
    ensures k >= it.index
  {
    Skip(list.observers, it.index, Limit(list, it))
  }

  // GetNext returns null.
  predicate AtEnd(list: List, it: Iter) {
    Target(list, it) >= Limit(list, it)
  }

  // The pass after GetNext.
  function Advanced(list: List, p: Pass): Pass {
    var k := Target(list, p.it);
    var skipped := p.skipped + Range(p.it.index, k);
    if AtEnd(list, p.it) then Pass(Next(list, p.it).1, p.start, p.calls, p.observers, skipped)
    else Pass(Next(list, p.it).1, p.start, p.calls + [k], p.observers + [list.observers[k].value], skipped)
  }

  function Apply(s: Sys, e: Event): Sys
    requires Enabled(s, e)
  {
    match e
    case EAdd(o) => s.(slots := Add(s.AsList(), o).observers)
    case ERemove(o) => s.(slots := Remove(s.AsList(), o).observers)
    case EClear => s.(slots := Clear(s.AsList()).observers)
    case EDestroy => s.(alive := false)
    case EBegin(i) => s.(passes := s.passes[i := Pass(Begin(s.AsList()).1, |s.slots|, [], [], {})])
    case ENext(i) =>
      if s.alive then s.(passes := s.passes[i := Advanced(s.AsList(), s.passes[i])]) else s
    case EEnd(i) =>
      var left := s.(passes := s.passes - {i});
      if s.alive then left.(slots := End(s.AsList()).observers) else left
  }

  // What cannot happen changes nothing.
  function Step(s: Sys, e: Event): Sys {
    if Enabled(s, e) then Apply(s, e) else s
  }

  function Run(s: Sys, events: seq<Event>): Sys
    decreases |events|
  {
    if events == [] then s else Run(Step(s, events[0]), events[1..])
  }

  function Initial(existingOnly: bool): Sys {
    Sys([], existingOnly, map[], true)
  }

  // ----- what every run keeps

  /** Every position before the iterator was either called, once and in order, or was null
      when the iterator came to it and is null for good. */
  predicate Accounted(slots: Slots, existingOnly: bool, p: Pass) {
    && p.it.index <= |slots| && p.start <= |slots|
    && p.it.maxIndex == (if existingOnly then Some(p.start) else None)
    && (existingOnly ==> p.it.index <= p.start)
    && Increasing(p.calls) && |p.observers| == |p.calls|
    && (forall k :: k in p.calls ==> k < p.it.index && k !in p.skipped)
    && (forall k :: 0 <= k < p.it.index ==> k in p.calls || k in p.skipped)
    && (forall k :: k in p.skipped ==> k < p.it.index && slots[k] == None)
  }

  predicate Inv(s: Sys) {
    && (s.alive ==> WellFormed(s.AsList()))
    && forall i :: i in s.passes ==> Accounted(s.slots, s.existingOnly, s.passes[i])
  }

  // Slots keep their places; a slot may become null and then stays so.
  predicate Continues(s: Slots, t: Slots) {
    |s| <= |t| && forall k :: 0 <= k < |s| ==> t[k] == s[k] || t[k] == None
  }

  /** No event moves a slot while a pass is on. */
  lemma SlotsStay(s: Sys, e: Event, i: nat)
    requires i in s.passes && e != EEnd(i)
    ensures Continues(s.slots, Step(s, e).slots)
  {
    assert |s.passes| > 0;
    if e.EEnd? && |s.passes| == 1 {
      OnlyPass(s.passes, i);
    }
  }

  lemma OnlyPass(passes: map<nat, Pass>, i: nat)
    requires i in passes && |passes| == 1
    ensures forall j :: j in passes ==> j == i
  {
    assert |passes - {i}| == 0;
    forall j | j in passes
      ensures j == i
    {
      assert j == i || j in passes - {i};
    }
  }

  lemma StillAccounted(slots: Slots, t: Slots, existingOnly: bool, p: Pass)
    requires Accounted(slots, existingOnly, p) && Continues(slots, t)
    ensures Accounted(t, existingOnly, p)
  {
  }

  lemma TargetBounds(list: List, p: Pass)
    requires Accounted(list.observers, list.existingOnly, p)
    ensures var k, limit := Target(list, p.it), Limit(list, p.it);
      && p.it.index <= k <= limit
      && limit == (if list.existingOnly then p.start else |list.observers|)
      && (k < limit ==> list.observers[k] != None)
      && forall j :: p.it.index <= j < k ==> list.observers[j] == None
  {
    var k, limit := Target(list, p.it), Limit(list, p.it);
    forall j | p.it.index <= j < k
      ensures j < limit && list.observers[j] == None
    {
      SkipsNulls(list.observers, p.it.index, limit, j);
    }
    if k > limit {
      SkipsNulls(list.observers, p.it.index, limit, k - 1);
    }
  }

  lemma AdvancedAccounted(list: List, p: Pass)
    requires Accounted(list.observers, list.existingOnly, p)
    ensures Accounted(list.observers, list.existingOnly, Advanced(list, p))
  {
    TargetBounds(list, p);
    var k, q := Target(list, p.it), Advanced(list, p);
    hide Range, Skip;
    RangeHas(p.it.index, k);
    if !AtEnd(list, p.it) {
      assert q.it.index == k + 1 && q.calls == p.calls + [k];
    } else {
      assert q.it.index == k && q.calls == p.calls;
    }
    forall j | 0 <= j < q.it.index
      ensures j in q.calls || j in q.skipped
    {
      if j == k {
        assert q.calls[|p.calls|] == k;
      } else if j < p.it.index {
        assert j in p.calls || j in p.skipped;
        assert j in p.calls ==> j in q.calls;
      }
    }
    assert Increasing(q.calls) by {
      forall i, j | 0 <= i < j < |q.calls|
        ensures q.calls[i] < q.calls[j]
      {
        assert q.calls[i] == p.calls[i] && p.calls[i] in p.calls;
      }
    }
  }

  lemma RangeHas(first: nat, end: nat)
    ensures forall k :: k in Range(first, end) <==> first <= k < end
  {
  }

  lemma StepKeepsInv(s: Sys, e: Event)
    requires Inv(s)
    ensures Inv(Step(s, e)) && Step(s, e).existingOnly == s.existingOnly
  {
    var t := Step(s, e);
    StaysWellFormed(s, e);
    forall i | i in t.passes
      ensures Accounted(t.slots, t.existingOnly, t.passes[i])
    {
      if i !in s.passes {
        NewPassAccounted(s);
      } else if e == ENext(i) {
        AdvancedAccounted(s.AsList(), s.passes[i]);
      } else {
        SlotsStay(s, e, i);
        hide Continues, Accounted, Add, Remove, Clear, End;
        StillAccounted(s.slots, t.slots, s.existingOnly, s.passes[i]);
      }
    }
  }

  lemma StaysWellFormed(s: Sys, e: Event)
    requires s.alive ==> WellFormed(s.AsList())
    ensures Step(s, e).alive ==> WellFormed(Step(s, e).AsList())
  {
    if s.alive && Enabled(s, e) {
      OperationsRefine(s.AsList(), if e.EAdd? || e.ERemove? then e.o else 0);
      hide WellFormed, Add, Remove, Clear, Begin, Next, Compacted, Live, Without, Advanced;
      var t := Apply(s, e);
      match e {
        case EEnd(i) =>
          assert |t.passes| == |s.passes| - 1;
          assert t.AsList() == End(s.AsList());
        case EBegin(i) => assert t.AsList() == Begin(s.AsList()).0 by { BeginIsDeeper(s.AsList()); }
        case ENext(i) => assert t.AsList() == s.AsList();
        case _ =>
      }
    }
  }

  lemma BeginIsDeeper(list: List)
    ensures Begin(list).0 == list.(depth := list.depth + 1)
  {
  }

  lemma NewPassAccounted(s: Sys)
    ensures Accounted(s.slots, s.existingOnly, Pass(Begin(s.AsList()).1, |s.slots|, [], [], {}))
  {
  }

  lemma {:induction false} RunKeepsInv(s: Sys, events: seq<Event>)
    requires Inv(s)
    ensures Inv(Run(s, events)) && Run(s, events).existingOnly == s.existingOnly
    decreases |events|
  {
    if events == [] {
    } else {
      StepKeepsInv(s, events[0]);
      RunKeepsInv(Step(s, events[0]), events[1..]);
    }
  }

  // ----- what a pass calls

  predicate Removes(e: Event, o: nat) {
    e == ERemove(o) || e == EClear
  }

  predicate NotRemoved(events: seq<Event>, o: nat) {
    forall n :: 0 <= n < |events| ==> !Removes(events[n], o)
  }

  // Slots stay, and a registration stays until it is removed.
  predicate SlotsGoOn(s: Slots, t: Slots, e: Event) {
    && Continues(s, t)
    && forall k :: 0 <= k < |s| ==> (t[k] != None <==> s[k] != None && !Removes(e, s[k].value))
  }

  /** The next state, as a pass that is on sees it. What it has called stays called, and of
      the positions that its GetNext goes past it calls exactly those that are not null. */
  predicate PassGoesOn(s: Slots, e: Event, i: nat, p: Pass, q: Pass) {
    && p.it.index <= q.it.index && p.calls <= q.calls && p.observers <= q.observers
    && (forall k :: 0 <= k < p.it.index ==> (k in q.calls <==> k in p.calls))
    && (forall k :: p.it.index <= k < q.it.index ==> e == ENext(i) && k < |s| && (k in q.calls <==> s[k] != None))
    && (forall j :: |p.calls| <= j < |q.calls| ==>
         j < |q.observers| && q.calls[j] < |s| && s[q.calls[j]] == Some(q.observers[j]))
  }

  lemma StepOfPass(s: Sys, e: Event, i: nat)
    requires Inv(s) && i in s.passes && e != EEnd(i)
    ensures var t := Step(s, e);
      && Inv(t) && i in t.passes && Continues(s.slots, t.slots)
      && PassGoesOn(s.slots, e, i, s.passes[i], t.passes[i])
      && (s.alive ==> SlotsGoOn(s.slots, t.slots, e))
      && (!s.alive ==> !t.alive && t.passes[i] == s.passes[i])
  {
    StepKeepsInv(s, e);
    SlotsStay(s, e, i);
    if s.alive {
      RegistrationsStay(s, e, i);
    }
    hide SlotsGoOn, Continues, PassGoesOn, WellFormed, Advanced;
    if e == ENext(i) && s.alive {
      GetNextCallsRegistered(s.AsList(), i, s.passes[i]);
    } else {
      SamePass(s.slots, e, i, s.passes[i]);
    }
    hide Accounted;
  }

  lemma SamePass(s: Slots, e: Event, i: nat, p: Pass)
    ensures PassGoesOn(s, e, i, p, p)
  {
  }

  lemma RegistrationsStay(s: Sys, e: Event, i: nat)
    requires Inv(s) && s.alive && i in s.passes && e != EEnd(i)
    ensures SlotsGoOn(s.slots, Step(s, e).slots, e)
  {
    hide Accounted;
    SlotsStay(s, e, i);
    assert |s.passes| > 0;
    if e.EEnd? && |s.passes| == 1 {
      OnlyPass(s.passes, i);
    }
    if e.ERemove? {
      forall k | 0 <= k < |s.slots|
        ensures Step(s, e).slots[k] != None <==> s.slots[k] != None && !Removes(e, s.slots[k].value)
      {
        if s.slots[k] == Some(e.o) {
          OnlySlot(s.slots, IndexOf(s.slots, e.o), k);
        }
      }
    }
  }

  lemma {:induction false} OnlySlot(s: Slots, j: nat, k: nat)
    requires NoDuplicates(s) && j < |s| && k < |s| && s[j] == s[k] != None
    ensures j == k
  {
    if j > 0 && k > 0 {
      OnlySlot(s[1..], j - 1, k - 1);
    } else {
      NotAgain(s, j);
      NotAgain(s, k);
    }
  }

  lemma NotAgain(s: Slots, m: nat)
    requires NoDuplicates(s) && m < |s| && s[0] != None
    ensures s[m] == s[0] ==> m == 0
  {
    assert m > 0 ==> s[m] == s[1..][m - 1];
  }

  lemma GetNextCallsRegistered(list: List, i: nat, p: Pass)
    requires Accounted(list.observers, list.existingOnly, p)
    ensures PassGoesOn(list.observers, ENext(i), i, p, Advanced(list, p))
  {
    AdvancedAccounted(list, p);
    TargetBounds(list, p);
    var k, q := Target(list, p.it), Advanced(list, p);
    hide Range, Skip;
    if !AtEnd(list, p.it) {
      assert q.it.index == k + 1 && q.calls == p.calls + [k] && q.calls[|p.calls|] == k;
    } else {
      assert q.it.index == k && q.calls == p.calls;
    }
    forall j | 0 <= j < q.it.index
      ensures j < p.it.index ==> (j in q.calls <==> j in p.calls)
      ensures j >= p.it.index ==> (j in q.calls <==> list.observers[j] != None)
    {
      CallsWithOneMore(p.calls, k, j);
    }
  }

  /** The number of the event with which pass i goes past position k. */
  function ReachedAt(s: Sys, events: seq<Event>, i: nat, k: nat): (n: nat)
    ensures n <= |events|
    decreases |events|
  {
    if events == [] then 0
    else
      var t := Step(s, events[0]);
      if i in t.passes && k < t.passes[i].it.index then 0 else 1 + ReachedAt(t, events[1..], i, k)
  }

  /** While pass i is on it only goes forward, and what it has called stays called; and with
      a list that has been destroyed nothing more happens to it. */
  lemma {:induction false} CallsAreFinal(s: Sys, events: seq<Event>, i: nat)
    requires Inv(s) && i in s.passes && EEnd(i) !in events
    ensures var t := Run(s, events);
      && Inv(t) && i in t.passes && Continues(s.slots, t.slots) && t.existingOnly == s.existingOnly
      && s.passes[i].calls <= t.passes[i].calls && s.passes[i].observers <= t.passes[i].observers
      && s.passes[i].it.index <= t.passes[i].it.index
      && (forall k :: 0 <= k < s.passes[i].it.index ==> (k in t.passes[i].calls <==> k in s.passes[i].calls))
      && (!s.alive ==> !t.alive && t.passes[i] == s.passes[i])
    decreases |events|
  {
    if events == [] {
    } else {
      StepOfPass(s, events[0], i);
      StepKeepsInv(s, events[0]);
      CallsAreFinal(Step(s, events[0]), events[1..], i);
      hide Inv, Step, SlotsGoOn;
    }
  }

  /** Pass i goes past position k at a moment `before`, and calls it if and only if there is
      an observer then, and it is that observer that it calls. For a slot of s that is so
      exactly if there was one and it had not been removed. */
  predicate CalledIfThere(s: Sys, events: seq<Event>, i: nat, k: nat) {
    var n, t := ReachedAt(s, events, i, k), Run(s, events);
    var before := Run(s, events[..n]);
    && i in t.passes && n < |events| && events[n] == ENext(i) && k < |before.slots|
    && (k in t.passes[i].calls <==> before.slots[k] != None)
    && (forall j :: 0 <= j < |t.passes[i].calls| && t.passes[i].calls[j] == k ==>
         j < |t.passes[i].observers| && before.slots[k] == Some(t.passes[i].observers[j]))
    && (k < |s.slots| ==>
         && (before.slots[k] != None <==> s.slots[k] != None && NotRemoved(events[..n], s.slots[k].value))
         && (before.slots[k] == s.slots[k] || before.slots[k] == None))
  }

  /** Over any events, that is so of every position that pass i goes past. */
  lemma {:induction false} CalledUnlessRemoved(s: Sys, events: seq<Event>, i: nat, k: nat)
    requires Inv(s) && i in s.passes && EEnd(i) !in events
    requires var t := Run(s, events); i in t.passes && s.passes[i].it.index <= k < t.passes[i].it.index
    ensures CalledIfThere(s, events, i, k)
    decreases |events|
  {
    var e, rest, t := events[0], events[1..], Step(s, events[0]);
    StepOfPass(s, e, i);
    CallsAreFinal(t, rest, i);
    if k < t.passes[i].it.index {
      CalledJustNow(s, e, i, k, t.passes[i], Run(t, rest));
      assert events[..0] == [];
    } else {
      CalledUnlessRemoved(t, rest, i, k);
      hide CalledIfThere, PassGoesOn, Inv, Accounted, Continues;
      CalledLater(s, events, i, k);
    }
  }

  lemma CalledLater(s: Sys, events: seq<Event>, i: nat, k: nat)
    requires events != [] && CalledIfThere(Step(s, events[0]), events[1..], i, k)
    requires i in Step(s, events[0]).passes && Step(s, events[0]).passes[i].it.index <= k
    requires SlotsGoOn(s.slots, Step(s, events[0]).slots, events[0])
    ensures CalledIfThere(s, events, i, k)
  {
    var e, rest, t := events[0], events[1..], Step(s, events[0]);
    var n := ReachedAt(s, events, i, k);
    assert n == 1 + ReachedAt(t, rest, i, k);
    FirstOf(s, events, n);
    if k < |s.slots| && s.slots[k] != None {
      NotRemovedFirst(e, rest[..n - 1], s.slots[k].value);
    }
    hide Step, ReachedAt, NotRemoved;
  }

  lemma CalledJustNow(s: Sys, e: Event, i: nat, k: nat, q: Pass, t: Sys)
    requires i in s.passes && i in t.passes && PassGoesOn(s.slots, e, i, s.passes[i], q)
    requires Accounted(t.slots, t.existingOnly, t.passes[i]) && Accounted(s.slots, s.existingOnly, s.passes[i])
    requires s.passes[i].it.index <= k < q.it.index
    requires q.calls <= t.passes[i].calls && q.observers <= t.passes[i].observers
    requires k in t.passes[i].calls <==> k in q.calls
    ensures forall j :: 0 <= j < |t.passes[i].calls| && t.passes[i].calls[j] == k ==>
      j < |t.passes[i].observers| && k < |s.slots| && s.slots[k] == Some(t.passes[i].observers[j])
  {
    var p, r := s.passes[i], t.passes[i];
    forall j | 0 <= j < |r.calls| && r.calls[j] == k
      ensures j < |r.observers| && k < |s.slots| && s.slots[k] == Some(r.observers[j])
    {
      assert k in q.calls;
      var m :| 0 <= m < |q.calls| && q.calls[m] == k;
      assert r.calls[m] == k && m == j;
      NotInPrefix(p.calls, q.calls, m);
    }
  }

  lemma NotInPrefix(p: seq<nat>, q: seq<nat>, m: nat)
    requires p <= q && m < |q| && q[m] !in p
    ensures m >= |p|
  {
  }

  lemma FirstOf(s: Sys, events: seq<Event>, n: nat)
    requires 0 < n <= |events|
    ensures events[..n] == [events[0]] + events[1..][..n - 1]
    ensures Run(s, events[..n]) == Run(Step(s, events[0]), events[1..][..n - 1])
  {
    assert events[..n][1..] == events[1..][..n - 1];
  }

  lemma NotRemovedFirst(e: Event, rest: seq<Event>, o: nat)
    ensures NotRemoved([e] + rest, o) <==> !Removes(e, o) && NotRemoved(rest, o)
  {
    if NotRemoved([e] + rest, o) {
      assert ([e] + rest)[0] == e;
      forall n | 0 <= n < |rest| ensures !Removes(rest[n], o) {
        assert ([e] + rest)[n + 1] == rest[n];
      }
    }
  }

  /** An observer that is removed before the pass reaches it is never called by the pass. */
  lemma RemovedIsNotCalled(s: Sys, events: seq<Event>, i: nat, k: nat)
    requires Inv(s) && i in s.passes && EEnd(i) !in events
    requires s.passes[i].it.index <= k < |s.slots| && s.slots[k] == None
    ensures i in Run(s, events).passes && k !in Run(s, events).passes[i].calls
  {
    CallsAreFinal(s, events, i);
    var t := Run(s, events);
    if k < t.passes[i].it.index {
      CalledUnlessRemoved(s, events, i, k);
    } else {
      assert Accounted(t.slots, t.existingOnly, t.passes[i]);
    }
  }

  /** A pass that begins in any state and has come to its limit has called, once each and in
      order, exactly these: of the observers that were registered when it began, those that
      were not removed before it got to them; and unless the list notifies existing observers
      only, of those added since the ones that were registered when it got to them. */
  lemma CompletedPass(s: Sys, events: seq<Event>, i: nat)
    requires Inv(s) && s.alive && i !in s.passes && EEnd(i) !in events
    requires var t := Run(Step(s, EBegin(i)), events);
      i in t.passes && t.passes[i].it.index == Limit(t.AsList(), t.passes[i].it)
    ensures var begun := Step(s, EBegin(i));
      var t := Run(begun, events);
      var p := t.passes[i];
      && p.it.index == (if s.existingOnly then |s.slots| else |t.slots|)
      && Increasing(p.calls) && (forall k :: k in p.calls ==> k < p.it.index)
      && |s.slots| <= p.it.index
      && (forall k :: 0 <= k < |s.slots| ==>
           (k in p.calls <==>
            s.slots[k] != None && NotRemoved(events[..ReachedAt(begun, events, i, k)], s.slots[k].value)))
      && |p.observers| == |p.calls|
      && (forall j :: 0 <= j < |p.calls| && p.calls[j] < |s.slots| ==> s.slots[p.calls[j]] == Some(p.observers[j]))
      && (forall k :: |s.slots| <= k < p.it.index ==>
           var before := Run(begun, events[..ReachedAt(begun, events, i, k)]);
           k < |before.slots| && (k in p.calls <==> before.slots[k] != None))
  {
    var begun := Step(s, EBegin(i));
    StepKeepsInv(s, EBegin(i));
    CallsAreFinal(begun, events, i);
    StartIsKept(begun, events, i);
    var t := Run(begun, events);
    var p := t.passes[i];
    assert Accounted(t.slots, t.existingOnly, p);
    hide Inv, Step, Run, NotRemoved, CalledIfThere, ReachedAt, Continues;
    forall k | 0 <= k < p.it.index
      ensures var n := ReachedAt(begun, events, i, k);
        var before := Run(begun, events[..n]);
        && k < |before.slots| && (k in p.calls <==> before.slots[k] != None)
        && (k < |s.slots| ==> (k in p.calls <==> s.slots[k] != None && NotRemoved(events[..n], s.slots[k].value)))
    {
      CalledUnlessRemoved(begun, events, i, k);
      CalledThen(begun, events, i, k);
    }
    forall j | 0 <= j < |p.calls| && p.calls[j] < |s.slots|
      ensures s.slots[p.calls[j]] == Some(p.observers[j])
    {
      assert p.calls[j] in p.calls && p.calls[j] < p.it.index;
      CalledUnlessRemoved(begun, events, i, p.calls[j]);
      CalledThere(begun, events, i, j);
    }
  }

  lemma CalledThen(s: Sys, events: seq<Event>, i: nat, k: nat)
    requires CalledIfThere(s, events, i, k)
    ensures var n, t := ReachedAt(s, events, i, k), Run(s, events);
      var before := Run(s, events[..n]);
      && i in t.passes && k < |before.slots| && (k in t.passes[i].calls <==> before.slots[k] != None)
      && (k < |s.slots| ==>
           (k in t.passes[i].calls <==> s.slots[k] != None && NotRemoved(events[..n], s.slots[k].value)))
  {
    hide Run, ReachedAt, NotRemoved;
  }

  lemma CalledThere(s: Sys, events: seq<Event>, i: nat, j: nat)
    requires i in Run(s, events).passes && j < |Run(s, events).passes[i].calls|
    requires CalledIfThere(s, events, i, Run(s, events).passes[i].calls[j])
    ensures var p := Run(s, events).passes[i];
      j < |p.observers| && (p.calls[j] < |s.slots| ==> s.slots[p.calls[j]] == Some(p.observers[j]))
  {
    hide Run, ReachedAt, NotRemoved;
  }

  // A pass keeps where it started.
  lemma {:induction false} StartIsKept(s: Sys, events: seq<Event>, i: nat)
    requires Inv(s) && i in s.passes && EEnd(i) !in events
    ensures i in Run(s, events).passes && Run(s, events).passes[i].start == s.passes[i].start
    decreases |events|
  {
    if events == [] {
    } else {
      StepOfPass(s, events[0], i);
      StartIsKept(Step(s, events[0]), events[1..], i);
    }
  }

  // ----- the registered observers

  lemma {:induction false} StaysAlive(s: Sys, events: seq<Event>)
    requires s.alive && EDestroy !in events
    ensures Run(s, events).alive
    decreases |events|
  {
    if events == [] {
    } else {
      assert EDestroy !in events[1..];
      StaysAlive(Step(s, events[0]), events[1..]);
    }
  }

  // A slot keeps its observer while a pass is on, unless that is removed.
  lemma {:induction false} SlotKeepsObserver(s: Sys, events: seq<Event>, i: nat, k: nat)
    requires Inv(s) && s.alive && i in s.passes && EEnd(i) !in events && EDestroy !in events
    requires k < |s.slots| && s.slots[k] != None && NotRemoved(events, s.slots[k].value)
    ensures var t := Run(s, events); k < |t.slots| && t.slots[k] == s.slots[k]
    decreases |events|
  {
    if events == [] {
    } else {
      StepOfPass(s, events[0], i);
      StaysAlive(s, [events[0]]);
      var t := Step(s, events[0]);
      assert t.slots[k] == s.slots[k];
      hide Inv, Step, SlotsGoOn, Continues, PassGoesOn;
      SlotKeepsObserver(t, events[1..], i, k);
    }
  }

  lemma {:induction false} HasSlot(s: Slots, o: nat) returns (k: nat)
    requires o in Live(s)
    ensures k < |s| && s[k] == Some(o)
  {
    LiveMembers(s, o);
    k :| k < |s| && s[k] == Some(o);
  }

  /** An observer that is registered when a pass begins, and is not removed while it is on, has
      been called exactly once when the pass has come to its limit. */
  lemma RegisteredIsCalledOnce(s: Sys, events: seq<Event>, i: nat, o: nat) returns (m: nat)
    requires Inv(s) && s.alive && i !in s.passes && EEnd(i) !in events && EDestroy !in events
    requires o in Live(s.slots) && NotRemoved(events, o)
    requires var t := Run(Step(s, EBegin(i)), events);
      i in t.passes && t.passes[i].it.index == Limit(t.AsList(), t.passes[i].it)
    ensures var called := Run(Step(s, EBegin(i)), events).passes[i].observers;
      m < |called| && called[m] == o && forall n :: 0 <= n < |called| && called[n] == o ==> n == m
  {
    hide Inv, Run, Step, Limit, NotRemoved, Live, ReachedAt;
    var begun := Step(s, EBegin(i));
    var p := Run(begun, events).passes[i];
    var k := HasSlot(s.slots, o);
    m := SlotIsCalled(s, events, i, k);
    PassBegins(s, i);
    forall n | 0 <= n < |p.observers| && p.observers[n] == o
      ensures n == m
    {
      OnlyPlace(begun, events, i, k, p.calls[n], o, n);
    }
  }

  /** The same as soon as its next GetNext returns null. */
  lemma CalledOnceAtEnd(s: Sys, events: seq<Event>, i: nat, o: nat) returns (m: nat)
    requires Inv(s) && s.alive && i !in s.passes && EEnd(i) !in events && EDestroy !in events
    requires o in Live(s.slots) && NotRemoved(events, o)
    requires var t := Run(Step(s, EBegin(i)), events); i in t.passes && AtEnd(t.AsList(), t.passes[i].it)
    ensures var called := Run(Step(s, EBegin(i)), events).passes[i].observers;
      m < |called| && called[m] == o && forall n :: 0 <= n < |called| && called[n] == o ==> n == m
  {
    hide Inv, Run, Step, Limit, Live, AtEnd;
    var begun := Step(s, EBegin(i));
    var t, more := Run(begun, events), events + [ENext(i)];
    PassBegins(s, i);
    CallsAreFinal(begun, events, i);
    StaysAlive(begun, events);
    RunLast(begun, events, ENext(i));
    LastGetNext(t, i);
    assert EEnd(i) !in more && EDestroy !in more && NotRemoved(more, o);
    m := RegisteredIsCalledOnce(s, more, i, o);
  }

  lemma LastGetNext(t: Sys, i: nat)
    requires Inv(t) && t.alive && i in t.passes && AtEnd(t.AsList(), t.passes[i].it)
    ensures var u := Step(t, ENext(i));
      && i in u.passes && u.passes[i].observers == t.passes[i].observers
      && u.passes[i].it.index == Limit(u.AsList(), u.passes[i].it)
  {
    TargetBounds(t.AsList(), t.passes[i]);
    var u := Step(t, ENext(i));
    assert u.passes.Keys == t.passes.Keys && |u.passes| == |u.passes.Keys| && |t.passes| == |t.passes.Keys|;
  }

  lemma {:induction false} RunLast(s: Sys, events: seq<Event>, e: Event)
    ensures Run(s, events + [e]) == Step(Run(s, events), e)
    decreases |events|
  {
    hide Step;
    if events == [] {
      assert [] + [e] == [e] && [e][1..] == [];
    } else {
      assert (events + [e])[1..] == events[1..] + [e] && (events + [e])[0] == events[0];
      RunLast(Step(s, events[0]), events[1..], e);
    }
  }

  /** And one that is not registered, and not added, is not called from then on. */
  lemma {:induction false} UnregisteredIsNotCalled(s: Sys, events: seq<Event>, i: nat, o: nat)
    requires Inv(s) && s.alive && i in s.passes && EEnd(i) !in events && EDestroy !in events && EAdd(o) !in events
    requires o !in Live(s.slots) && o !in s.passes[i].observers
    ensures i in Run(s, events).passes && o !in Run(s, events).passes[i].observers
    decreases |events|
  {
    hide Inv, Step, Live;
    if events == [] {
    } else {
      StepKeepsInv(s, events[0]);
      StepRefines(s, events[0]);
      StaysAlive(s, [events[0]]);
      StepCallsRegistered(s, events[0], i, o);
      WithoutHas(Live(s.slots), if events[0].ERemove? then events[0].o else 0, o);
      UnregisteredIsNotCalled(Step(s, events[0]), events[1..], i, o);
    }
  }

  lemma {:induction false} WithoutHas(list: seq<nat>, x: nat, o: nat)
    ensures o in Without(list, x) ==> o in list
  {
    if list == [] {
    } else {
      WithoutHas(list[1..], x, o);
    }
  }

  lemma StepCallsRegistered(s: Sys, e: Event, i: nat, o: nat)
    requires Inv(s) && s.alive && i in s.passes && e != EEnd(i) && o !in Live(s.slots) && o !in s.passes[i].observers
    ensures i in Step(s, e).passes && o !in Step(s, e).passes[i].observers
  {
    LiveMembers(s.slots, o);
    if e == ENext(i) {
      TargetBounds(s.AsList(), s.passes[i]);
    }
    hide Live, WellFormed;
  }

  lemma PassBegins(s: Sys, i: nat)
    requires Inv(s) && s.alive && i !in s.passes
    ensures var begun := Step(s, EBegin(i));
      Inv(begun) && begun.slots == s.slots && begun.alive && i in begun.passes && begun.passes[i].it.index == 0
  {
    StepKeepsInv(s, EBegin(i));
  }

  // A slot whose observer is not removed is called at its place.
  lemma SlotIsCalled(s: Sys, events: seq<Event>, i: nat, k: nat) returns (m: nat)
    requires Inv(s) && s.alive && i !in s.passes && EEnd(i) !in events
    requires k < |s.slots| && s.slots[k] != None && NotRemoved(events, s.slots[k].value)
    requires var t := Run(Step(s, EBegin(i)), events);
      i in t.passes && t.passes[i].it.index == Limit(t.AsList(), t.passes[i].it)
    ensures var p := Run(Step(s, EBegin(i)), events).passes[i];
      && m < |p.calls| == |p.observers| && p.calls[m] == k && p.observers[m] == s.slots[k].value
      && Increasing(p.calls) && forall n :: 0 <= n < |p.calls| ==> p.calls[n] < p.it.index
  {
    hide Inv, Run, Step, Limit;
    CompletedPass(s, events, i);
    var p := Run(Step(s, EBegin(i)), events).passes[i];
    assert k in p.calls;
    m :| m < |p.calls| && p.calls[m] == k;
    forall n | 0 <= n < |p.calls|
      ensures p.calls[n] < p.it.index
    {
      assert p.calls[n] in p.calls;
    }
  }

  // No other position is called with that observer.
  lemma OnlyPlace(s: Sys, events: seq<Event>, i: nat, k: nat, j: nat, o: nat, n: nat)
    requires Inv(s) && s.alive && i in s.passes && s.passes[i].it.index == 0
    requires EEnd(i) !in events && EDestroy !in events && NotRemoved(events, o)
    requires k < |s.slots| && s.slots[k] == Some(o)
    requires var t := Run(s, events);
      && i in t.passes && j < t.passes[i].it.index
      && n < |t.passes[i].calls| && t.passes[i].calls[n] == j
      && n < |t.passes[i].observers| && t.passes[i].observers[n] == o
    ensures j == k
  {
    CalledUnlessRemoved(s, events, i, j);
    var prefix := events[..ReachedAt(s, events, i, j)];
    var before := Run(s, prefix);
    assert before.slots[j] == Some(o);
    SlotKeepsObserver(s, prefix, i, k);
    StaysAlive(s, prefix);
    RunKeepsInv(s, prefix);
    OnlySlot(before.slots, j, k);
  }

  // The observers that are registered after some events, as a list that is only added to,
  // removed from and cleared.
  function Registered(list: seq<nat>, events: seq<Event>): seq<nat>
    decreases |events|
  {
    if events == [] then list else Registered(RegisteredAfter(list, events[0]), events[1..])
  }

  function RegisteredAfter(list: seq<nat>, e: Event): seq<nat> {
    match e
    case EAdd(o) => if o in list then list else list + [o]
    case ERemove(o) => Without(list, o)
    case EClear => []
    case _ => list
  }

  lemma StepRefines(s: Sys, e: Event)
    requires Inv(s) && s.alive
    ensures Live(Step(s, e).slots) == RegisteredAfter(Live(s.slots), e)
  {
    hide Accounted, Live, Without, NoDuplicates;
    OperationsRefine(s.AsList(), if e.EAdd? || e.ERemove? then e.o else 0);
  }

  lemma {:induction false} DestroyedForGood(s: Sys, events: seq<Event>)
    requires !s.alive
    ensures !Run(s, events).alive
    decreases |events|
  {
    if events == [] {
    } else {
      DestroyedForGood(Step(s, events[0]), events[1..]);
    }
  }

  /** After any events that do not destroy it, the list holds the registered observers. */
  lemma {:induction false} RunKeepsList(s: Sys, events: seq<Event>)
    requires Inv(s) && Run(s, events).alive
    ensures Live(Run(s, events).slots) == Registered(Live(s.slots), events)
    decreases |events|
  {
    hide Inv, Live, Without, WellFormed;
    if !s.alive {
      DestroyedForGood(s, events);
    } else if events != [] {
      var e := events[0];
      StepKeepsInv(s, e);
      StepRefines(s, e);
      RunKeepsList(Step(s, e), events[1..]);
    }
  }

  /** After any events that leave no pass on, the vector is exactly the registered observers,
      in order, without nulls or duplicates. */
  lemma VectorAfterPasses(existingOnly: bool, events: seq<Event>)
    requires var s := Run(Initial(existingOnly), events); s.passes == map[] && s.alive
    ensures var slots, live := Run(Initial(existingOnly), events).slots, Registered([], events);
      && |slots| == |live|
      && (forall k :: 0 <= k < |live| ==> slots[k] == Some(live[k]))
      && (forall i, k :: 0 <= i < k < |live| ==> live[i] != live[k])
  {
    var s := Initial(existingOnly);
    RunKeepsInv(s, events);
    RunKeepsList(s, events);
    assert |Run(s, events).passes| == 0;
    VectorIsList(Run(s, events).AsList());
  }
}
