/** base/callback_list.h on values: a linked list of callbacks whose nodes stay where they
    are while an iterator is active, iterators that may stand at the end of the list, and
    every interleaving of subscriptions, their destruction, and passes. */
module CallbackListSpec {
  import opened Positions

  // A node and whether its callback has been reset to null.
  datatype Node = Node(id: nat, live: bool)

  // Where an iterator stands; the end of a std::list stays the end when nodes are appended.
  datatype Position = At(k: nat) | End

  // callbacks_, active_iterator_count_, and how often removal_callback_ has run.
  datatype List = List(nodes: seq<Node>, active: nat, signals: nat)

  function IndexOf(nodes: seq<Node>, id: nat): (k: nat)
    ensures k <= |nodes| && (k < |nodes| ==> nodes[k].id == id)
    ensures forall j :: 0 <= j < k ==> nodes[j].id != id
  {
    if nodes == [] || nodes[0].id == id then 0 else 1 + IndexOf(nodes[1..], id)
  }

  function Add(list: List, id: nat): List {
    list.(nodes := list.nodes + [Node(id, true)])
  }

  // Subscription::~Subscription
  function Unsubscribe(list: List, id: nat): List {
    var k := IndexOf(list.nodes, id);
    if k == |list.nodes| then list
    else if list.active > 0 then list.(nodes := list.nodes[k := Node(id, false)])
    else list.(nodes := list.nodes[..k] + list.nodes[k + 1..], signals := list.signals + 1)
  }

  function Begin(list: List): (List, Position) {
    (list.(active := list.active + 1), PositionAt(list.nodes, 0))
  }

  function PositionAt(nodes: seq<Node>, k: nat): Position {
    if k < |nodes| then At(k) else End
  }

  // The first live node from k on; the length if there is none.
  function Skip(nodes: seq<Node>, k: nat): (r: nat)
    requires k <= |nodes|
    ensures k <= r <= |nodes| && (r < |nodes| ==> nodes[r].live)
    ensures forall j :: k <= j < r ==> !nodes[j].live
    decreases |nodes| - k
  {
    if k < |nodes| && !nodes[k].live then Skip(nodes, k + 1) else k
  }

  // The node that GetNext returns, or the length for NULL.
  function Target(nodes: seq<Node>, p: Position): (k: nat)
    requires p.At? ==> p.k < |nodes|
    ensures k <= |nodes| && (k < |nodes| ==> nodes[k].live)
  {
    if p.End? then |nodes| else Skip(nodes, p.k)
  }

  // The position after GetNext.
  function Next(nodes: seq<Node>, p: Position): Position
    requires p.At? ==> p.k < |nodes|
  {
    PositionAt(nodes, Target(nodes, p) + 1)
  }

  function Compacted(nodes: seq<Node>): (r: seq<Node>)
    ensures forall k :: 0 <= k < |r| ==> r[k].live && r[k] in nodes
    ensures |r| <= |nodes| && (|r| == |nodes| <==> AllLive(nodes))
  {
    if nodes == [] then []
    else if nodes[0].live then
      var rest := Compacted(nodes[1..]);
      [nodes[0]] + rest
    else Compacted(nodes[1..])
  }

  predicate AllLive(nodes: seq<Node>) {
    forall k :: 0 <= k < |nodes| ==> nodes[k].live
  }

  // Iterator::~Iterator, with Compact.
  function EndPass(list: List): List
    requires list.active > 0
  {
    if list.active > 1 then list.(active := list.active - 1)
    else List(Compacted(list.nodes), 0, list.signals + if AllLive(list.nodes) then 0 else 1)
  }

  // The subscriptions that have not been destroyed.
  function Live(nodes: seq<Node>): seq<nat> {
    if nodes == [] then [] else (if nodes[0].live then [nodes[0].id] else []) + Live(nodes[1..])
  }

  // ----- any interleaving

  // A live iterator: the positions it has called, those it found reset, and, once it stands
  // at the end, how many nodes there were when it got there.
  datatype Pass = Pass(at: Position, calls: seq<nat>, skipped: set<nat>, ended: nat) {
    function Reached(): nat { if at.At? then at.k else ended }
  }

  datatype Sys = Sys(nodes: seq<Node>, signals: nat, passes: map<nat, Pass>) {
    function AsList(): List { List(nodes, |passes|, signals) }
  }

  datatype Event =
    | EAdd(id: nat)
    | EUnsubscribe(id: nat)
    | EBegin(pass: nat)
    | ENext(pass: nat)
    | EEnd(pass: nat)

  // Node ids are fresh, as addresses of nodes are; so are the names of passes.
  predicate Enabled(s: Sys, e: Event) {
    match e
    case EAdd(id) => IndexOf(s.nodes, id) == |s.nodes|
    case EUnsubscribe(id) => true
    case EBegin(pass) => pass !in s.passes
    case ENext(pass) => pass in s.passes
    case EEnd(pass) => pass in s.passes
  }

  function Advanced(nodes: seq<Node>, p: Pass): Pass
    requires p.at.At? ==> p.at.k < |nodes|
  {
    if p.at.End? then p
    else
      var k := Target(nodes, p.at);
      var calls := if k < |nodes| then p.calls + [k] else p.calls;
      Pass(Next(nodes, p.at), calls, p.skipped + Range(p.at.k, k), |nodes|)
  }

  predicate InBounds(nodes: seq<Node>, p: Pass) {
    p.at.At? ==> p.at.k < |nodes|
  }

  function Apply(s: Sys, e: Event): Sys {
    match e
    case EAdd(id) => s.(nodes := Add(s.AsList(), id).nodes)
    case EUnsubscribe(id) =>
      var list := Unsubscribe(s.AsList(), id);
      s.(nodes := list.nodes, signals := list.signals)
    case EBegin(pass) => s.(passes := s.passes[pass := Pass(Begin(s.AsList()).1, [], {}, 0)])
    case ENext(pass) =>
      if pass in s.passes && InBounds(s.nodes, s.passes[pass]) then
        s.(passes := s.passes[pass := Advanced(s.nodes, s.passes[pass])])
      else s
    case EEnd(pass) =>
      if pass !in s.passes then s
      else
        var list := EndPass(s.AsList());
        Sys(list.nodes, list.signals, s.passes - {pass})
  }

  // What cannot happen changes nothing.
  function Step(s: Sys, e: Event): Sys {
    if Enabled(s, e) then Apply(s, e) else s
  }

  function Run(s: Sys, events: seq<Event>): Sys
    decreases |events|
  {
    if events == [] then s else Run(Step(s, events[0]), events[1..])
  }

  const INITIAL := Sys([], 0, map[])
}
