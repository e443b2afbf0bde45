/** base/lazy_instance.h and base/lazy_instance.cc as atomic steps of any number of threads
    on one state word: 0, 1 while the instance is being created, or its address. */
module LazyInstance {

  type Thread = nat

  const CREATING: nat := 1  // kLazyInstanceStateCreating

  // Where a thread is in Pointer().
  datatype Pc =
    | Outside
    | Load                     // before the first Acquire_Load
    | Swap                     // before the compare-and-swap of NeedsLazyInstance
    | Spin                     // in its loop
    | New                      // before Traits::New
    | Publish(value: nat)      // in CompleteLazyInstance, before the Release_Store
    | Register                 // before AtExitManager::RegisterCallback
    | Read                     // before the last load, in instance()
    | Returned(result: nat)    // Pointer() has returned

  // word is private_instance_; buffer is the address of private_buf_, where Traits::New
  // makes the instance. The rest is history since the last OnExit: constructions begun and
  // finished, and destructors registered.
  datatype State = State(
    word: nat, buffer: nat, registers: bool, pcs: map<Thread, Pc>,
    begun: nat, built: nat, registered: nat)
  {
    function At(t: Thread): Pc {
      if t in pcs then pcs[t] else Outside
    }
  }

  // An aligned address: neither 0 nor 1, so it has a bit outside the low one.
  function Initial(buffer: nat, registers: bool): State
    requires buffer > CREATING
  {
    State(0, buffer, registers, map[], 0, 0, 0)
  }

  datatype Event = Call(t: Thread) | Go(t: Thread) | Leave(t: Thread) | OnExit

  predicate Enabled(s: State, e: Event) {
    match e
    case Call(t) => s.At(t).Outside?
    case Go(t) => !s.At(t).Outside? && !s.At(t).Returned?
    case Leave(t) => s.At(t).Returned?
    case OnExit =>
      // Run by the AtExitManager, single threaded, if it was registered.
      s.registered > 0 && forall t :: t in s.pcs ==> s.pcs[t].Outside?
  }

  // One atomic step of thread t inside Pointer().
  function Step(s: State, t: Thread): State
    requires !s.At(t).Outside? && !s.At(t).Returned?
  {
    match s.At(t)
    case Load =>
      // value & ~kLazyInstanceStateCreating
      Goto(s, t, if s.word / 2 * 2 != 0 then Read else Swap)
    case Swap =>
      if s.word == 0 then Goto(s.(word := CREATING), t, New) else Goto(s, t, Spin)
    case Spin => Goto(s, t, if s.word == CREATING then Spin else Read)
    case New => Goto(s.(begun := s.begun + 1), t, Publish(s.buffer))
    case Publish(value) => Goto(s.(word := value, built := s.built + 1), t, if s.registers then Register else Read)
    case Register => Goto(s.(registered := s.registered + 1), t, Read)
    case Read => Goto(s, t, Returned(s.word))
  }

  function Goto(s: State, t: Thread, pc: Pc): State {
    s.(pcs := s.pcs[t := pc])
  }

  function Apply(s: State, e: Event): State
    requires Enabled(s, e)
  {
    match e
    case Call(t) => Goto(s, t, Load)
    case Go(t) => Step(s, t)
    case Leave(t) => Goto(s, t, Outside)
    case OnExit => s.(word := 0, begun := 0, built := 0, registered := 0)
  }

  function Run(s: State, events: seq<Event>): State
    decreases |events|
  {
    if events == [] then s
    else Run(if Enabled(s, events[0]) then Apply(s, events[0]) else s, events[1..])
  }

  // ----- the invariant

  // The thread holds the creation of the instance.
  predicate IsCreating(pc: Pc) {
    pc.New? || pc.Publish?
  }

  // What the state word and the history say about a thread's place.
  predicate Fits(s: State, pc: Pc) {
    && (IsCreating(pc) ==> s.word == CREATING && (pc.New? ==> s.begun == 0) && (pc.Publish? ==> s.begun == 1))
    && (pc.Publish? ==> pc.value == s.buffer)
    && (pc.Spin? ==> s.word != 0)
    && (pc.Register? ==> s.word == s.buffer && s.registers && s.registered == 0)
    && (pc.Read? ==> s.word == s.buffer)
    && (pc.Returned? ==> pc.result == s.buffer && s.word == s.buffer)
  }

  ghost predicate Inv(s: State) {
    && s.buffer > CREATING
    && (s.word == 0 || s.word == CREATING || s.word == s.buffer)
    && (s.word == 0 ==> s.begun == 0)
    && s.built == (if s.word == s.buffer then 1 else 0)
    && (s.word == s.buffer ==> s.begun == 1)
    && s.registered <= s.built
    && (!s.registers ==> s.registered == 0)
    && (forall t :: Fits(s, s.At(t)))
    // At most one thread creates the instance, or has its destructor still to register.
    && (forall t, u :: t != u && IsCreating(s.At(t)) ==> !IsCreating(s.At(u)))
    && (forall t, u :: t != u && s.At(t).Register? ==> !s.At(u).Register?)
    && (s.word == CREATING ==> exists t :: IsCreating(s.At(t)))
    && (s.registers && s.word == s.buffer && s.registered == 0 ==> exists t :: s.At(t).Register?)
  }

  lemma OthersStay(s: State, t: Thread, pc: Pc)
    ensures forall u :: Goto(s, t, pc).At(u) == if u == t then pc else s.At(u)
  {
  }

  // A thread that moves on without touching the word, neither into nor out of the creation.
  lemma MoveKeepsInv(s: State, t: Thread, pc: Pc)
    requires Inv(s) && Fits(s, pc) && !IsCreating(pc) && !IsCreating(s.At(t)) && !pc.Register? && !s.At(t).Register?
    ensures Inv(Goto(s, t, pc))
  {
    OthersStay(s, t, pc);
    var s' := Goto(s, t, pc);
    forall u
      ensures Fits(s', s'.At(u))
    {
      assert Fits(s, s.At(u));
    }
    if s.word == CREATING {
      var u :| IsCreating(s.At(u));
      assert IsCreating(s'.At(u));
    }
    if s.registers && s.word == s.buffer && s.registered == 0 {
      var u :| s.At(u).Register?;
      assert s'.At(u).Register?;
    }
  }

  lemma SwapKeepsInv(s: State, t: Thread)
    requires Inv(s) && s.At(t).Swap? && s.word == 0
    ensures Inv(Step(s, t))
  {
    var s' := Step(s, t);
    OthersStay(s.(word := CREATING), t, New);
    forall u
      ensures Fits(s', s'.At(u))
    {
      assert Fits(s, s.At(u));
    }
    assert IsCreating(s'.At(t));
    forall u, v | u != v && IsCreating(s'.At(u))
      ensures !IsCreating(s'.At(v))
    {
      assert Fits(s, s.At(u)) && Fits(s, s.At(v));
    }
  }

  lemma NewKeepsInv(s: State, t: Thread)
    requires Inv(s) && s.At(t).New?
    ensures Inv(Step(s, t))
  {
    var s' := Step(s, t);
    OthersStay(s.(begun := s.begun + 1), t, Publish(s.buffer));
    assert Fits(s, s.At(t));
    forall u
      ensures Fits(s', s'.At(u)) && (u != t ==> !IsCreating(s'.At(u)))
    {
      assert Fits(s, s.At(u));
      assert IsCreating(s.At(t)) && (u != t ==> !IsCreating(s.At(u)));
    }
    assert IsCreating(s'.At(t));
    forall u, v | u != v && IsCreating(s'.At(u))
      ensures !IsCreating(s'.At(v))
    {
      assert u == t;
    }
  }

  lemma PublishKeepsInv(s: State, t: Thread)
    requires Inv(s) && s.At(t).Publish?
    ensures Inv(Step(s, t))
  {
    var s' := Step(s, t);
    var pc := if s.registers then Register else Read;
    OthersStay(s.(word := s.At(t).value, built := s.built + 1), t, pc);
    assert Fits(s, s.At(t));
    forall u
      ensures Fits(s', s'.At(u)) && !IsCreating(s'.At(u)) && (u != t ==> !s'.At(u).Register?)
    {
      assert Fits(s, s.At(u));
      assert u != t ==> !IsCreating(s.At(u));
    }
    if s.registers {
      assert s'.At(t).Register?;
    }
  }

  lemma RegisterKeepsInv(s: State, t: Thread)
    requires Inv(s) && s.At(t).Register?
    ensures Inv(Step(s, t))
  {
    var s' := Step(s, t);
    OthersStay(s.(registered := s.registered + 1), t, Read);
    assert Fits(s, s.At(t));
    forall u
      ensures Fits(s', s'.At(u)) && !IsCreating(s'.At(u)) && !s'.At(u).Register?
    {
      assert Fits(s, s.At(u));
      assert u != t ==> !s.At(u).Register?;
    }
  }

  lemma OnExitKeepsInv(s: State)
    requires Inv(s) && Enabled(s, OnExit)
    ensures Inv(Apply(s, OnExit))
  {
    var s' := Apply(s, OnExit);
    forall u
      ensures s'.At(u).Outside?
    {
    }
  }

  lemma ApplyKeepsInv(s: State, e: Event)
    requires Inv(s) && Enabled(s, e)
    ensures Inv(Apply(s, e))
  {
    match e
    case Call(t) => MoveKeepsInv(s, t, Load);
    case Leave(t) => MoveKeepsInv(s, t, Outside);
    case OnExit => OnExitKeepsInv(s);
    case Go(t) =>
      assert Fits(s, s.At(t));
      match s.At(t)
      case Load => MoveKeepsInv(s, t, if s.word / 2 * 2 != 0 then Read else Swap);
      case Swap =>
        if s.word == 0 {
          SwapKeepsInv(s, t);
        } else {
          MoveKeepsInv(s, t, Spin);
        }
      case Spin => MoveKeepsInv(s, t, if s.word == CREATING then Spin else Read);
      case New => NewKeepsInv(s, t);
      case Publish(value) => PublishKeepsInv(s, t);
      case Register => RegisterKeepsInv(s, t);
      case Read => MoveKeepsInv(s, t, Returned(s.word));
  }

  lemma {:induction false} RunKeepsInv(s: State, events: seq<Event>)
    requires Inv(s)
    ensures var t := Run(s, events); Inv(t) && t.buffer == s.buffer && t.registers == s.registers
    decreases |events|
  {
    if events == [] {
    } else {
      if Enabled(s, events[0]) {
        ApplyKeepsInv(s, events[0]);
      }
      RunKeepsInv(if Enabled(s, events[0]) then Apply(s, events[0]) else s, events[1..]);
    }
  }

  /** In every interleaving, since the last OnExit at most one caller has constructed the
      instance, nobody has returned before it was published, all callers have returned the
      same address, and the destructor was registered at most once. */
  lemma OneInstance(buffer: nat, registers: bool, events: seq<Event>)
    requires buffer > CREATING
    ensures var s := Run(Initial(buffer, registers), events);
      && s.built <= s.begun <= 1 && s.registered <= s.built
      && (forall t :: s.At(t).Returned? ==> s.built == 1 && s.At(t).result == buffer && s.word == buffer)
      && (forall t, u :: IsCreating(s.At(t)) && IsCreating(s.At(u)) ==> t == u)
  {
    var init := Initial(buffer, registers);
    assert Inv(init);
    RunKeepsInv(init, events);
    var s := Run(init, events);
    forall t | s.At(t).Returned?
      ensures s.built == 1 && s.At(t).result == buffer && s.word == buffer
    {
      assert Fits(s, s.At(t));
    }
    if s.word == CREATING {
      var t :| IsCreating(s.At(t));
      assert Fits(s, s.At(t));
    }
  }

  /** A caller never spins in vain: somebody else is then creating the instance; and once
      nobody is inside, a published instance has its destructor registered exactly if it is
      to be destroyed. */
  lemma SpinningIsServed(buffer: nat, registers: bool, events: seq<Event>, t: Thread)
    requires buffer > CREATING
    ensures var s := Run(Initial(buffer, registers), events);
      && (s.At(t).Spin? && s.word == CREATING ==> exists u :: u != t && IsCreating(s.At(u)))
      && ((forall u :: s.At(u).Outside? || s.At(u).Returned?) ==>
           s.begun == s.built && s.registered == if registers then s.built else 0)
  {
    var init := Initial(buffer, registers);
    assert Inv(init);
    RunKeepsInv(init, events);
    var s := Run(init, events);
    if s.word == CREATING {
      var u :| IsCreating(s.At(u));
      assert s.At(t).Spin? ==> u != t;
    }
  }

  // ----- constructions and destructions over whole runs

  function Next(s: State, e: Event): State {
    if Enabled(s, e) then Apply(s, e) else s
  }

  // How often some thread runs Traits::New.
  function Constructions(s: State, events: seq<Event>): nat
    decreases |events|
  {
    if events == [] then 0
    else
      var e := events[0];
      (if e.Go? && s.At(e.t).New? then 1 else 0) + Constructions(Next(s, e), events[1..])
  }

  // How often OnExit runs, with Traits::Delete.
  function Exits(s: State, events: seq<Event>): nat
    decreases |events|
  {
    if events == [] then 0
    else (if events[0].OnExit? && Enabled(s, OnExit) then 1 else 0) + Exits(Next(s, events[0]), events[1..])
  }

  // An instance has been made and not yet been deleted.
  ghost predicate Exists(s: State) {
    s.word == s.buffer || exists t :: s.At(t).Publish?
  }

  ghost function Instances(s: State): nat {
    if Exists(s) then 1 else 0
  }

  lemma NobodyPublishes(s: State)
    requires Inv(s) && s.begun == 0
    ensures !Exists(s)
  {
    forall t
      ensures !s.At(t).Publish?
    {
      assert Fits(s, s.At(t));
    }
  }

  lemma SomebodyPublishes(s: State)
    requires Inv(s) && s.begun == 1
    ensures Exists(s)
  {
    if s.word != s.buffer {
      assert s.word == CREATING;
      var t :| IsCreating(s.At(t));
      assert Fits(s, s.At(t));
      assert s.At(t).Publish?;
    }
  }

  lemma ExistsIsBegun(s: State)
    requires Inv(s)
    ensures s.begun == Instances(s)
  {
    if s.word == CREATING {
      var t :| IsCreating(s.At(t));
      assert Fits(s, s.At(t));
    }
    if s.begun == 0 {
      NobodyPublishes(s);
    } else {
      SomebodyPublishes(s);
    }
  }

  /** Over any run there are as many constructions as deletions, but for the instance that there
      was at the beginning and the one that there is at the end. */
  lemma {:induction false} ConstructedAndDeleted(s: State, events: seq<Event>)
    requires Inv(s)
    ensures Instances(s) + Constructions(s, events) == Exits(s, events) + Instances(Run(s, events))
    decreases |events|
  {
    if events == [] {
    } else {
      var e := events[0];
      if Enabled(s, e) {
        ApplyKeepsInv(s, e);
        ExistsIsBegun(s);
        ExistsIsBegun(Apply(s, e));
        OneStep(s, e);
      }
      ConstructedAndDeleted(Next(s, e), events[1..]);
      hide Inv, Apply, Enabled, Exists;
    }
  }

  lemma OneStep(s: State, e: Event)
    requires Inv(s) && Enabled(s, e)
    ensures s.begun + (if e.Go? && s.At(e.t).New? then 1 else 0)
         == (if e.OnExit? then 1 else 0) + Apply(s, e).begun
  {
    if e.Go? {
      assert Fits(s, s.At(e.t));
    }
  }

  /** Whoever has returned has got the one instance that was made since there was none, be that
      since the start or since the last deletion. */
  lemma ReturnedIsNew(s: State, events: seq<Event>, t: Thread)
    requires Inv(s) && !Exists(s) && Exits(s, events) == 0 && Run(s, events).At(t).Returned?
    ensures Constructions(s, events) == 1 && Run(s, events).At(t).result == s.buffer
  {
    ConstructedAndDeleted(s, events);
    RunKeepsInv(s, events);
    var r := Run(s, events);
    assert Fits(r, r.At(t));
    hide Inv;
  }

  lemma ExitLeavesNothing(s: State)
    requires Inv(s) && Enabled(s, OnExit)
    ensures Exists(s) && Inv(Apply(s, OnExit)) && !Exists(Apply(s, OnExit))
  {
    ApplyKeepsInv(s, OnExit);
    NobodyPublishes(Apply(s, OnExit));
  }

  /** From the start, constructions are deletions and the instance that there is now. */
  lemma ConstructedSinceStart(buffer: nat, registers: bool, events: seq<Event>)
    requires buffer > CREATING
    ensures var init := Initial(buffer, registers);
      Constructions(init, events) == Exits(init, events) + Instances(Run(init, events))
  {
    var init := Initial(buffer, registers);
    assert Inv(init);
    NobodyPublishes(init);
    ConstructedAndDeleted(init, events);
  }

  // ----- everybody returns

  // How many steps a caller has before it, unless it has to spin.
  function StepsLeft(pc: Pc): nat {
    match pc
    case Load => 6
    case Swap => 5
    case New => 4
    case Publish(_) => 3
    case Spin => 2
    case Register => 2
    case Read => 1
    case _ => 0
  }

  predicate Waits(s: State, t: Thread) {
    s.At(t).Spin? && s.word == CREATING
  }

  /** In any interleaving each step of a caller brings it nearer to its return, but while it
      spins because another is creating the instance; and steps of others leave it where it is. */
  lemma StepsCount(s: State, e: Event, t: Thread)
    requires Inv(s) && Enabled(s, e) && !s.At(t).Outside? && !s.At(t).Returned?
    ensures e == Go(t) && !Waits(s, t) ==> StepsLeft(Apply(s, e).At(t)) < StepsLeft(s.At(t))
    ensures e != Go(t) || Waits(s, t) ==> Apply(s, e).At(t) == s.At(t)
  {
  }

  function Times(t: Thread, n: nat): seq<Event> {
    if n == 0 then [] else [Go(t)] + Times(t, n - 1)
  }

  /** So a caller that does not find another one creating the instance returns with it in six
      steps of its own; one that has spun in two, once the instance is published; and one that
      creates the instance in four. */
  lemma {:induction false} CallerReturns(s: State, t: Thread, n: nat)
    requires Inv(s) && !s.At(t).Outside? && (s.word == CREATING ==> IsCreating(s.At(t)))
    requires n >= StepsLeft(s.At(t))
    ensures Run(s, Times(t, n)).At(t) == Returned(s.buffer)
    decreases n
  {
    assert Fits(s, s.At(t));
    if n == 0 {
    } else {
      var e := Go(t);
      var next := Next(s, e);
      assert Times(t, n) == [e] + Times(t, n - 1);
      if Enabled(s, e) {
        ApplyKeepsInv(s, e);
        StepsCount(s, e, t);
        MovesOn(s, t);
      }
      hide Inv, Apply, Enabled, IsCreating;
      CallerReturns(next, t, n - 1);
    }
  }

  lemma MovesOn(s: State, t: Thread)
    requires Inv(s) && Enabled(s, Go(t)) && (s.word == CREATING ==> IsCreating(s.At(t)))
    ensures var next := Apply(s, Go(t));
      && next.buffer == s.buffer && !next.At(t).Outside? && (next.word == CREATING ==> IsCreating(next.At(t)))
  {
    assert Fits(s, s.At(t));
  }

  /** Once the instance is published a caller gets it with two loads and writes nothing. */
  lemma FastPath(s: State, t: Thread)
    requires Inv(s) && s.word == s.buffer && s.At(t).Outside?
    ensures Run(s, [Call(t), Go(t), Go(t)]) == s.(pcs := s.pcs[t := Returned(s.buffer)])
  {
    var s1 := Apply(s, Call(t));
    var s2 := Apply(s1, Go(t));
    assert s2.At(t) == Read;
    var s3 := Apply(s2, Go(t));
    assert s3.pcs == s.pcs[t := Returned(s.buffer)];
    assert Run(s3, []) == s3 && Run(s2, [Go(t)]) == s3 && Run(s1, [Go(t), Go(t)]) == s3;
  }
}
