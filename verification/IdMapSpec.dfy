/** What base/id_map.h keeps: a table, the ids that wait to be removed while there are
    iterators, and the iterators, each with what it has stood on. */
module IdMapSpec {

  datatype Entry<T> = Entry(key: int, value: T)

  /** An iterator that began at `start`, is at `pos` and has stood on `visits`. */
  datatype Iter = Iter(start: nat, pos: nat, visits: seq<nat>)

  /** The table in the order iterators go through it; and how often each value was deleted. */
  datatype State<!I, T> = State(data: seq<Entry<T>>, removed: set<int>, iters: map<I, Iter>, released: multiset<T>)

  function Find<T>(data: seq<Entry<T>>, key: int): (i: nat)
    ensures i <= |data| && (i < |data| ==> data[i].key == key)
    ensures forall j :: 0 <= j < i ==> data[j].key != key
  {
    if data == [] then 0
    else
      var i := Find(data[..|data| - 1], key);
      if i < |data| - 1 then i else if data[|data| - 1].key == key then i else i + 1
  }

  ghost predicate Has<T>(data: seq<Entry<T>>, key: int) {
    Find(data, key) < |data|
  }

  ghost predicate Distinct<T>(data: seq<Entry<T>>) {
    forall i, j :: 0 <= i < j < |data| ==> data[i].key != data[j].key
  }

  ghost function Without<T>(data: seq<Entry<T>>, ids: set<int>): (r: seq<Entry<T>>)
    ensures forall i :: 0 <= i < |r| ==> r[i] in data && r[i].key !in ids
    ensures forall i :: 0 <= i < |data| && data[i].key !in ids ==> data[i] in r
    ensures Distinct(data) ==> Distinct(r)
  {
    if data == [] then []
    else
      var last, rest := data[|data| - 1], Without(data[..|data| - 1], ids);
      if last.key in ids then rest else rest + [last]
  }

  ghost function Values<T>(data: seq<Entry<T>>, ids: set<int>): multiset<T> {
    if data == [] then multiset{}
    else
      var last, rest := data[|data| - 1], Values(data[..|data| - 1], ids);
      if last.key in ids then rest + multiset{last.value} else rest
  }

  ghost function Keys<T>(data: seq<Entry<T>>): set<int> {
    set e | e in data :: e.key
  }

  // SkipRemovedEntries
  ghost function Skip<T>(data: seq<Entry<T>>, removed: set<int>, i: nat): (j: nat)
    requires i <= |data|
    ensures i <= j <= |data| && (j < |data| ==> data[j].key !in removed)
    ensures forall k :: i <= k < j ==> data[k].key in removed
    decreases |data| - i
  {
    if i < |data| && data[i].key in removed then Skip(data, removed, i + 1) else i
  }

  // ----- events

  datatype Event<!I, T> =
    | Add(key: int, value: T)
    | Remove(key: int)
    | Replace(key: int, value: T)
    | Clear
    | Begin(iter: I)
    | CopyOf(iter: I, from: I)
    | Advance(iter: I)
    | Destroy(iter: I)

  /** What callers owe: ids are new, nothing is added while there are iterators, and an
      iterator is used while it exists and not past the end. */
  ghost predicate Allowed<I, T>(s: State<I, T>, e: Event<I, T>) {
    match e
    case Add(key, _) => s.iters == map[] && !Has(s.data, key)
    case Begin(i) => i !in s.iters
    case CopyOf(i, from) => i !in s.iters && from in s.iters && s.iters[from].pos <= |s.data|
    case Advance(i) => i in s.iters && s.iters[i].pos < |s.data|
    case Destroy(i) => i in s.iters
    case _ => true
  }

  ghost function StandOn<T>(data: seq<Entry<T>>, removed: set<int>, start: nat, visits: seq<nat>, from: nat): Iter
    requires from <= |data|
  {
    var pos := Skip(data, removed, from);
    Iter(start, pos, if pos < |data| then visits + [pos] else visits)
  }

  /** What an event does to a map that owns its values or does not. */
  ghost function Apply<I, T>(s: State<I, T>, e: Event<I, T>, owns: bool): State<I, T>
    requires Allowed(s, e)
  {
    match e
    case Add(key, value) => s.(data := s.data + [Entry(key, value)])
    case Remove(key) =>
      if !Has(s.data, key) then s
      else if s.iters == map[] then Purge(s, {key}, owns)
      else s.(removed := s.removed + {key})
    case Replace(key, value) =>
      if !Has(s.data, key) then s else s.(data := s.data[Find(s.data, key) := Entry(key, value)])
    case Clear =>
      if s.iters != map[] then s.(removed := s.removed + Keys(s.data))
      else if owns then Purge(s, Keys(s.data), owns)
      else s
    case Begin(i) => s.(iters := s.iters[i := StandOn(s.data, s.removed, 0, [], 0)])
    case CopyOf(i, from) =>
      var pos := s.iters[from].pos;
      s.(iters := s.iters[i := StandOn(s.data, s.removed, pos, [], pos)])
    case Advance(i) =>
      var it := s.iters[i];
      s.(iters := s.iters[i := StandOn(s.data, s.removed, it.start, it.visits, it.pos + 1)])
    case Destroy(i) =>
      var left := s.(iters := s.iters - {i});
      if left.iters == map[] then Purge(left, s.removed, owns).(removed := {}) else left
  }

  ghost function Purge<I, T>(s: State<I, T>, ids: set<int>, owns: bool): State<I, T> {
    s.(data := Without(s.data, ids), released := if owns then s.released + Values(s.data, ids) else s.released)
  }

  // ----- what holds in every run

  /** An iterator has stood on every entry it went past, in order, but for entries that wait
      to be removed. */
  ghost predicate IterInv<T>(it: Iter, data: seq<Entry<T>>, removed: set<int>) {
    && it.start <= it.pos <= |data|
    && (forall i :: it.start <= i < it.pos ==> i in it.visits || data[i].key in removed)
    && (forall i :: 0 <= i < |it.visits| ==> it.visits[i] <= it.pos && it.visits[i] < |data|)
    && (it.pos < |data| ==> it.visits != [] && it.visits[|it.visits| - 1] == it.pos)
    && (it.pos == |data| ==> it.pos !in it.visits)
    && (forall i, j :: 0 <= i < j < |it.visits| ==> it.visits[i] < it.visits[j])
  }

  ghost predicate Inv<I, T>(s: State<I, T>) {
    && Distinct(s.data)
    && s.removed <= Keys(s.data)
    && (s.iters == map[] ==> s.removed == {})
    && (forall i :: i in s.iters ==> IterInv(s.iters[i], s.data, s.removed))
  }

  lemma StandOnKeepsInv<T>(data: seq<Entry<T>>, removed: set<int>, it: Iter, from: nat)
    requires if it.visits == [] then from == it.pos == it.start else IterInv(it, data, removed) && from == it.pos + 1
    requires from <= |data|
    ensures IterInv(StandOn(data, removed, it.start, it.visits, from), data, removed)
  {
    var next := StandOn(data, removed, it.start, it.visits, from);
    forall i | next.start <= i < next.pos
      ensures i in next.visits || data[i].key in removed
    {
      if i < it.pos {
        assert i in it.visits ==> i in next.visits;
      } else if i < from {
        assert it.visits[|it.visits| - 1] == i;
        assert i in next.visits;
      }
    }
  }

  lemma IterInvIsMonotone<T>(it: Iter, data: seq<Entry<T>>, removed: set<int>, more: set<int>)
    requires IterInv(it, data, removed) && removed <= more
    ensures IterInv(it, data, more)
  {
  }

  lemma KeysOf<T>(data: seq<Entry<T>>, key: int)
    ensures Has(data, key) <==> key in Keys(data)
  {
    if Has(data, key) {
      assert data[Find(data, key)] in data;
    }
  }

  lemma {:induction false} EventKeepsInv<I, T>(s: State<I, T>, e: Event<I, T>, owns: bool)
    requires Inv(s) && Allowed(s, e)
    ensures Inv(Apply(s, e, owns))
  {
    match e {
      case Add(key, value) =>
        AddKeepsDistinct(s.data, key, value);
      case Remove(key) =>
        KeysOf(s.data, key);
        if Has(s.data, key) {
          MarkKeepsInv(s, {key});
        }
        hide Distinct, IterInv, Without, Find;
      case Replace(key, value) =>
        if Has(s.data, key) {
          ReplaceKeepsInv(s, Find(s.data, key), value);
        }
      case Clear =>
        MarkKeepsInv(s, Keys(s.data));
        hide Distinct, IterInv, Without, Keys;
      case Destroy(i) =>
        hide Distinct, IterInv, Without, Keys;
      case _ =>
        hide Inv, Apply;
        MoveKeepsInv(s, e, owns);
    }
  }

  lemma MoveKeepsInv<I, T>(s: State<I, T>, e: Event<I, T>, owns: bool)
    requires Inv(s) && Allowed(s, e) && (e.Begin? || e.CopyOf? || e.Advance?)
    ensures Inv(Apply(s, e, owns))
  {
    hide Distinct, Keys, StandOn;
    var it := Apply(s, e, owns).iters[e.iter];
    assert IterInv(it, s.data, s.removed) by {
      match e {
        case Begin(i) => StandOnKeepsInv(s.data, s.removed, Iter(0, 0, []), 0);
        case CopyOf(i, from) =>
          var pos := s.iters[from].pos;
          StandOnKeepsInv(s.data, s.removed, Iter(pos, pos, []), pos);
        case Advance(i) =>
          MidwayHasVisits(s.iters[i], s.data, s.removed);
          StandOnKeepsInv(s.data, s.removed, s.iters[i], s.iters[i].pos + 1);
      }
    }
    PlaceKeepsInv(s, e.iter, it);
  }

  lemma PlaceKeepsInv<I, T>(s: State<I, T>, i: I, it: Iter)
    requires Inv(s) && IterInv(it, s.data, s.removed)
    ensures Inv(s.(iters := s.iters[i := it]))
  {
    hide Distinct, Keys, IterInv;
  }

  lemma MidwayHasVisits<T>(it: Iter, data: seq<Entry<T>>, removed: set<int>)
    requires IterInv(it, data, removed) && it.pos < |data|
    ensures it.visits != []
  {
  }

  lemma AddKeepsDistinct<T>(data: seq<Entry<T>>, key: int, value: T)
    requires Distinct(data) && !Has(data, key)
    ensures Distinct(data + [Entry(key, value)])
  {
  }

  lemma MarkKeepsInv<I, T>(s: State<I, T>, ids: set<int>)
    requires Inv(s) && ids <= Keys(s.data)
    ensures s.iters != map[] ==> Inv(s.(removed := s.removed + ids))
  {
    hide Distinct, IterInv, Keys;
    forall i | i in s.iters
      ensures IterInv(s.iters[i], s.data, s.removed + ids)
    {
      IterInvIsMonotone(s.iters[i], s.data, s.removed, s.removed + ids);
    }
  }

  lemma ReplaceKeepsInv<I, T>(s: State<I, T>, at: nat, value: T)
    requires Inv(s) && at < |s.data|
    ensures Inv(s.(data := s.data[at := Entry(s.data[at].key, value)]))
  {
    var data := s.data[at := Entry(s.data[at].key, value)];
    ReplaceKeepsKeys(s.data, at, value);
    hide Distinct, Keys;
    forall i | i in s.iters
      ensures IterInv(s.iters[i], data, s.removed)
    {
      assert forall k :: 0 <= k < |data| ==> data[k].key == s.data[k].key;
    }
    hide IterInv;
  }

  lemma ReplaceKeepsKeys<T>(data: seq<Entry<T>>, at: nat, value: T)
    requires at < |data|
    ensures var after := data[at := Entry(data[at].key, value)];
            Keys(after) == Keys(data) && (Distinct(data) ==> Distinct(after))
  {
    var after := data[at := Entry(data[at].key, value)];
    forall k ensures k in Keys(after) <==> k in Keys(data) {
      if k in Keys(data) {
        var i :| 0 <= i < |data| && data[i].key == k;
        assert after[i] in after && after[i].key == k;
      }
      if k in Keys(after) {
        var i :| 0 <= i < |after| && after[i].key == k;
        assert data[i] in data && data[i].key == k;
      }
    }
  }

  ghost predicate AllowedRun<I, T>(s: State<I, T>, events: seq<Event<I, T>>, owns: bool)
    decreases |events|
  {
    events == [] || (Allowed(s, events[0]) && AllowedRun(Apply(s, events[0], owns), events[1..], owns))
  }

  ghost function Run<I, T>(s: State<I, T>, events: seq<Event<I, T>>, owns: bool): State<I, T>
    requires AllowedRun(s, events, owns)
    decreases |events|
  {
    if events == [] then s else Run(Apply(s, events[0], owns), events[1..], owns)
  }

  /** So it holds after any number of removals, clears and overlapping iterators. */
  lemma {:induction false} RunKeepsInv<I, T>(s: State<I, T>, events: seq<Event<I, T>>, owns: bool)
    requires Inv(s) && AllowedRun(s, events, owns)
    ensures Inv(Run(s, events, owns))
    decreases |events|
  {
    if events == [] {
    } else {
      EventKeepsInv(s, events[0], owns);
      RunKeepsInv(Apply(s, events[0], owns), events[1..], owns);
    }
  }

  // ----- the map there would be if removals were not put off

  ghost function Live<I, T>(s: State<I, T>): map<int, T> {
    LiveOf(s.data, s.removed)
  }

  ghost function LiveOf<T>(data: seq<Entry<T>>, removed: set<int>): map<int, T> {
    map k | k in Keys(data) && Has(data, k) && k !in removed :: data[Find(data, k)].value
  }

  /** The entries that stay are the live ones, and size() is how many there are. */
  lemma SizeIsLive<I, T>(s: State<I, T>)
    requires Inv(s)
    ensures |Live(s)| == |s.data| - |s.removed| == |Without(s.data, s.removed)|
  {
    hide Distinct, Keys, Without, LiveOf, IterInv;
    SizeOf(s.data, s.removed);
  }

  lemma SizeOf<T>(data: seq<Entry<T>>, removed: set<int>)
    requires Distinct(data) && removed <= Keys(data)
    ensures |LiveOf(data, removed)| == |data| - |removed| == |Without(data, removed)|
  {
    KeysAreAsMany(data);
    KeysAreAsMany(Without(data, removed));
    LiveKeys(data, removed);
    SizeOfDifference(Keys(data), removed);
    hide Distinct, Keys, Without, LiveOf;
  }

  lemma SizeOfDifference(a: set<int>, b: set<int>)
    requires b <= a
    ensures |a - b| == |a| - |b|
  {
  }

  lemma LiveKeys<T>(data: seq<Entry<T>>, removed: set<int>)
    ensures LiveOf(data, removed).Keys == Keys(data) - removed == Keys(Without(data, removed))
    ensures |LiveOf(data, removed)| == |Keys(data) - removed|
  {
    var r := Without(data, removed);
    forall k
      ensures k in LiveOf(data, removed) <==> k in Keys(data) - removed
      ensures k in Keys(r) <==> k in Keys(data) - removed
    {
      KeysOf(data, k);
      KeysWithout(data, removed, k);
    }
    assert LiveOf(data, removed).Keys == Keys(data) - removed;
  }

  lemma {:induction false} KeysAreAsMany<T>(data: seq<Entry<T>>)
    requires Distinct(data)
    ensures |Keys(data)| == |data|
  {
    if data == [] {
    } else {
      var last, rest := data[|data| - 1], data[..|data| - 1];
      KeysAreAsMany(rest);
      assert data == rest + [last];
      assert Keys(data) == Keys(rest) + {last.key};
    }
  }

  lemma KeysWithout<T>(data: seq<Entry<T>>, ids: set<int>, k: int)
    ensures k in Keys(Without(data, ids)) <==> k in Keys(data) && k !in ids
  {
    var r := Without(data, ids);
    if k in Keys(r) {
      var i :| 0 <= i < |r| && r[i].key == k;
    }
    if k in Keys(data) && k !in ids {
      var i :| 0 <= i < |data| && data[i].key == k;
      assert data[i] in r;
    }
  }

  lemma FindWithout<T>(data: seq<Entry<T>>, ids: set<int>, k: int)
    requires Distinct(data) && k !in ids
    ensures var r := Without(data, ids);
            && (Has(r, k) <==> Has(data, k))
            && (Has(data, k) ==> r[Find(r, k)] == data[Find(data, k)])
  {
    var r := Without(data, ids);
    KeysWithout(data, ids, k);
    KeysOf(data, k);
    KeysOf(r, k);
    if Has(data, k) {
      var i :| 0 <= i < |data| && data[i] == r[Find(r, k)];
      assert i == Find(data, k);
    }
  }

  /** What an event means for the live map. Clear does nothing to a map that does not own its
      values and has no iterators. */
  ghost function Meaning<I, T>(live: map<int, T>, e: Event<I, T>, owns: bool, iterating: bool): map<int, T> {
    match e
    case Add(key, value) => live[key := value]
    case Remove(key) => live - {key}
    case Replace(key, value) => if key in live then live[key := value] else live
    case Clear => if owns || iterating then map[] else live
    case _ => live
  }

  lemma EventMeans<I, T>(s: State<I, T>, e: Event<I, T>, owns: bool)
    requires Inv(s) && Allowed(s, e)
    ensures Live(Apply(s, e, owns)) == Meaning(Live(s), e, owns, s.iters != map[])
  {
    hide LiveOf, Has, Find, Without, Distinct, IterInv, StandOn, Keys;
    match e {
      case Add(key, value) => AddMeans(s.data, s.removed, key, value);
      case Remove(key) =>
        MarkMeans(s.data, s.removed, {key});
        PurgeMeans(s.data, {key});
        AbsentMeans(s.data, s.removed, key);
      case Replace(key, value) => ReplaceMeans(s.data, s.removed, key, value);
      case Clear =>
        MarkMeans(s.data, s.removed, Keys(s.data));
        PurgeMeans(s.data, Keys(s.data));
        AllMarked(s.data, s.removed);
      case Destroy(_) =>
        MarkMeans(s.data, {}, s.removed);
        PurgeMeans(s.data, s.removed);
        assert {} + s.removed == s.removed;
      case _ =>
    }
  }

  lemma AbsentMeans<T>(data: seq<Entry<T>>, removed: set<int>, key: int)
    ensures !Has(data, key) ==> LiveOf(data, removed) - {key} == LiveOf(data, removed)
  {
  }

  lemma AllMarked<T>(data: seq<Entry<T>>, removed: set<int>)
    ensures LiveOf(data, removed) - Keys(data) == map[]
  {
  }

  lemma MarkMeans<T>(data: seq<Entry<T>>, removed: set<int>, ids: set<int>)
    ensures LiveOf(data, removed + ids) == LiveOf(data, removed) - ids
  {
  }

  lemma PurgeMeans<T>(data: seq<Entry<T>>, ids: set<int>)
    requires Distinct(data)
    ensures LiveOf(Without(data, ids), {}) == LiveOf(data, {}) - ids
  {
    var r := Without(data, ids);
    forall k
      ensures k in LiveOf(r, {}) <==> k in LiveOf(data, {}) - ids
      ensures k in LiveOf(r, {}) ==> LiveOf(r, {})[k] == LiveOf(data, {})[k]
    {
      KeysOf(data, k);
      KeysOf(r, k);
      KeysWithout(data, ids, k);
      if k !in ids {
        FindWithout(data, ids, k);
      }
    }
  }

  lemma AddMeans<T>(data: seq<Entry<T>>, removed: set<int>, key: int, value: T)
    requires !Has(data, key) && removed == {}
    ensures LiveOf(data + [Entry(key, value)], removed) == LiveOf(data, removed)[key := value]
  {
    var r := data + [Entry(key, value)];
    forall k
      ensures k in LiveOf(r, removed) <==> k in LiveOf(data, removed)[key := value]
      ensures k in LiveOf(r, removed) ==> LiveOf(r, removed)[k] == LiveOf(data, removed)[key := value][k]
    {
      KeysOf(data, k);
      KeysOf(r, k);
      assert r[..|data|] == data;
      hide Keys;
    }
  }

  lemma ReplaceMeans<T>(data: seq<Entry<T>>, removed: set<int>, key: int, value: T)
    requires Distinct(data)
    ensures Has(data, key) ==>
              var live := LiveOf(data, removed);
              var after := LiveOf(data[Find(data, key) := Entry(key, value)], removed);
              after == if key in live then live[key := value] else live
    ensures !Has(data, key) ==> key !in LiveOf(data, removed)
  {
    if Has(data, key) {
      var r := data[Find(data, key) := Entry(key, value)];
      ReplaceKeepsKeys(data, Find(data, key), value);
      KeysOf(data, key);
      forall k
        ensures Has(r, k) <==> Has(data, k)
        ensures Has(r, k) ==> r[Find(r, k)] == if k == key then Entry(key, value) else data[Find(data, k)]
      {
        FindReplaced(data, key, value, k);
      }
      hide *;
      ReplacedLive(data, r, removed, key, value);
    }
  }

  lemma ReplacedLive<T>(data: seq<Entry<T>>, r: seq<Entry<T>>, removed: set<int>, key: int, value: T)
    requires Has(data, key) && Keys(r) == Keys(data)
    requires forall k :: Has(r, k) <==> Has(data, k)
    requires forall k :: Has(r, k) && Has(data, k) ==>
      r[Find(r, k)] == if k == key then Entry(key, value) else data[Find(data, k)]
    ensures var live := LiveOf(data, removed);
            LiveOf(r, removed) == if key in live then live[key := value] else live
  {
    KeysOf(data, key);
    hide Keys, Find;
  }

  lemma FindReplaced<T>(data: seq<Entry<T>>, key: int, value: T, k: int)
    requires Distinct(data) && Has(data, key)
    ensures var r := data[Find(data, key) := Entry(key, value)];
            && (Has(r, k) <==> Has(data, k))
            && (Has(r, k) ==> r[Find(r, k)] == if k == key then Entry(key, value) else data[Find(data, k)])
  {
    var r := data[Find(data, key) := Entry(key, value)];
    assert forall i :: 0 <= i < |data| ==> r[i].key == data[i].key;
    assert Has(r, k) ==> data[Find(r, k)].key == k;
    assert Has(data, k) ==> r[Find(data, k)].key == k;
  }

  // ----- iterators and deletion

  /** An iterator is only ever put on a live entry, and one that began at the first entry and
      has come to the end has stood on every live one. */
  lemma IteratorSeesLiveEntries<I, T>(s: State<I, T>, e: Event<I, T>, owns: bool)
    requires Inv(s) && Allowed(s, e) && (e.Begin? || e.CopyOf? || e.Advance?)
    ensures var r := Apply(s, e, owns);
            var it := r.iters[e.iter];
            && (it.pos < |r.data| ==> r.data[it.pos].key in Live(r))
            && (it.pos == |r.data| && it.start == 0 ==> forall k :: k in Live(r) ==> Find(r.data, k) in it.visits)
  {
    EventKeepsInv(s, e, owns);
    var r := Apply(s, e, owns);
    var it := r.iters[e.iter];
    if it.pos < |r.data| {
      assert r.data[it.pos] in r.data;
      KeysOf(r.data, r.data[it.pos].key);
    }
  }

  /** Where it goes: from the beginning, the original's place, or behind the one it was on, to
      the first live entry, or to the end if there is none; and that is all that changes. */
  lemma IteratorMovesTo<I, T>(s: State<I, T>, e: Event<I, T>, owns: bool)
    requires Inv(s) && Allowed(s, e) && (e.Begin? || e.CopyOf? || e.Advance?)
    ensures var r := Apply(s, e, owns);
            var pos := r.iters[e.iter].pos;
            var from := if e.Begin? then 0 else if e.CopyOf? then s.iters[e.from].pos else s.iters[e.iter].pos + 1;
            && from <= pos <= |s.data|
            && (forall k :: from <= k < pos ==> s.data[k].key !in Live(s))
            && (pos < |s.data| ==> s.data[pos].key in Live(s))
            && r == s.(iters := r.iters) && r.iters.Keys == s.iters.Keys + {e.iter}
            && forall i :: i in s.iters && i != e.iter ==> r.iters[i] == s.iters[i]
  {
    hide Inv, IterInv, LiveOf, Skip, Has, Find;
    var from := if e.Begin? then 0 else if e.CopyOf? then s.iters[e.from].pos else s.iters[e.iter].pos + 1;
    SkipsToLive(s.data, s.removed, from);
  }

  lemma SkipsToLive<T>(data: seq<Entry<T>>, removed: set<int>, from: nat)
    requires from <= |data|
    ensures var pos := Skip(data, removed, from);
            && from <= pos <= |data| && (forall k :: from <= k < pos ==> data[k].key !in LiveOf(data, removed))
            && (pos < |data| ==> data[pos].key in LiveOf(data, removed))
  {
    var pos := Skip(data, removed, from);
    if pos < |data| {
      assert data[pos] in data;
      KeysOf(data, data[pos].key);
    }
  }

  ghost function AllValues<T>(data: seq<Entry<T>>): multiset<T> {
    if data == [] then multiset{} else AllValues(data[..|data| - 1]) + multiset{data[|data| - 1].value}
  }

  lemma {:induction false} ValuesAreSplit<T>(data: seq<Entry<T>>, ids: set<int>)
    ensures AllValues(data) == AllValues(Without(data, ids)) + Values(data, ids)
  {
    if data == [] {
    } else {
      var last, rest := data[|data| - 1], data[..|data| - 1];
      ValuesAreSplit(rest, ids);
      AddHeld(Without(rest, ids), last);
    }
  }

  lemma Exchange<T>(a: multiset<T>, x: T, b: multiset<T>, y: T, more: multiset<T>)
    requires a + multiset{x} == b + multiset{y}
    ensures a + more + multiset{x} == b + more + multiset{y}
  {
    assert a + more + multiset{x} == a + multiset{x} + more;
  }

  lemma Swap<T>(a: multiset<T>, x: T, y: T)
    ensures a + multiset{x} + multiset{y} == a + multiset{y} + multiset{x}
  {
  }

  lemma {:induction false} ValuesReplaced<T>(data: seq<Entry<T>>, at: nat, e: Entry<T>)
    requires at < |data|
    ensures AllValues(data[at := e]) + multiset{data[at].value} == AllValues(data) + multiset{e.value}
  {
    var r := data[at := e];
    var n := |data| - 1;
    assert AllValues(r) == AllValues(r[..n]) + multiset{r[n].value};
    assert AllValues(data) == AllValues(data[..n]) + multiset{data[n].value};
    hide AllValues;
    if at == n {
      assert r[..n] == data[..n];
      Swap(AllValues(data[..n]), data[at].value, e.value);
    } else {
      ValuesReplaced(data[..n], at, e);
      assert r[..n] == data[..n][at := e];
      Exchange(AllValues(r[..n]), data[at].value, AllValues(data[..n]), e.value, multiset{data[n].value});
    }
  }

  lemma PurgeDeletes<I, T>(s: State<I, T>, ids: set<int>)
    ensures Held(Purge(s, ids, true)) == Held(s)
  {
    ValuesAreSplit(s.data, ids);
  }

  // What a map has in its table or has deleted.
  ghost function Held<I, T>(s: State<I, T>): multiset<T> {
    AllValues(s.data) + s.released
  }

  ghost function Given<I, T>(s: State<I, T>, e: Event<I, T>): multiset<T> {
    if e.Add? || (e.Replace? && Has(s.data, e.key)) then multiset{e.value} else multiset{}
  }

  ghost function HandedBack<I, T>(s: State<I, T>, e: Event<I, T>): multiset<T> {
    if e.Replace? && Has(s.data, e.key) then multiset{s.data[Find(s.data, e.key)].value} else multiset{}
  }

  /** A map that owns its values deletes each exactly when it leaves the table, other than by
      Replace, which hands the old value back; one that does not deletes none. */
  lemma DeletedOnce<I, T>(s: State<I, T>, e: Event<I, T>, owns: bool)
    requires Inv(s) && Allowed(s, e)
    ensures !owns ==> Apply(s, e, owns).released == s.released
    ensures owns ==> Held(Apply(s, e, owns)) + HandedBack(s, e) == Held(s) + Given(s, e)
  {
    hide Without, Values, Distinct, IterInv, StandOn, Keys, AllValues, Has, Find;
    match e {
      case Add(key, value) => AddHeld(s.data, Entry(key, value));
      case Remove(key) => PurgeDeletes(s, {key});
      case Replace(key, value) => ReplaceHeld(s, key, value);
      case Clear => PurgeDeletes(s, Keys(s.data));
      case Destroy(i) => PurgeDeletes(s.(iters := s.iters - {i}), s.removed);
      case _ =>
    }
  }

  // What came in over a run, and what Replace gave back.
  ghost function GivenIn<I, T>(s: State<I, T>, events: seq<Event<I, T>>, owns: bool): multiset<T>
    requires AllowedRun(s, events, owns)
    decreases |events|
  {
    if events == [] then multiset{}
    else Given(s, events[0]) + GivenIn(Apply(s, events[0], owns), events[1..], owns)
  }

  ghost function HandedBackIn<I, T>(s: State<I, T>, events: seq<Event<I, T>>, owns: bool): multiset<T>
    requires AllowedRun(s, events, owns)
    decreases |events|
  {
    if events == [] then multiset{}
    else HandedBack(s, events[0]) + HandedBackIn(Apply(s, events[0], owns), events[1..], owns)
  }

  /** Over any run of a map that owns its values, what was given to it is what it holds, what
      it has deleted and what it has handed back, each as often; one that does not own its
      values deletes none. */
  lemma {:induction false} RunDeletesOnce<I, T>(s: State<I, T>, events: seq<Event<I, T>>, owns: bool)
    requires Inv(s) && AllowedRun(s, events, owns)
    ensures !owns ==> Run(s, events, owns).released == s.released
    ensures owns ==>
      Held(s) + GivenIn(s, events, owns) == Held(Run(s, events, owns)) + HandedBackIn(s, events, owns)
    decreases |events|
  {
    if events == [] {
    } else {
      var next := Apply(s, events[0], owns);
      EventKeepsInv(s, events[0], owns);
      DeletedOnce(s, events[0], owns);
      RunDeletesOnce(next, events[1..], owns);
      if owns {
        Balance(Held(s), Given(s, events[0]), Held(next), HandedBack(s, events[0]), GivenIn(next, events[1..], owns),
                Held(Run(next, events[1..], owns)), HandedBackIn(next, events[1..], owns));
      }
    }
  }

  lemma Balance<T>(held: multiset<T>, given: multiset<T>, heldNext: multiset<T>, back: multiset<T>,
                   givenLater: multiset<T>, heldLast: multiset<T>, backLater: multiset<T>)
    requires heldNext + back == held + given
    requires heldNext + givenLater == heldLast + backLater
    ensures held + (given + givenLater) == heldLast + (back + backLater)
  {
    assert held + (given + givenLater) == (heldNext + back) + givenLater;
    assert (heldNext + givenLater) + back == heldLast + (back + backLater);
  }

  // ~IDMap, of a map that owns its values.
  ghost function Destroyed<I, T>(s: State<I, T>): State<I, T> {
    Purge(s, Keys(s.data), true)
  }

  /** When it is destroyed, be there iterators or not, an owning map that began empty has deleted
      or handed back everything that it was ever given, each value as often as it was given. */
  lemma NothingIsKept<I, T>(events: seq<Event<I, T>>)
    requires AllowedRun(Empty(), events, true)
    ensures Destroyed(Run(Empty(), events, true)).released + HandedBackIn(Empty(), events, true)
         == GivenIn(Empty(), events, true)
  {
    var s: State<I, T> := Empty();
    var r := Run(s, events, true);
    EmptyHolds<I, T>();
    RunDeletesOnce(s, events, true);
    PurgeDeletes(r, Keys(r.data));
    DestroyedHoldsNothing(r);
  }

  function Empty<I, T>(): State<I, T> {
    State([], {}, map[], multiset{})
  }

  lemma EmptyHolds<I, T>()
    ensures Inv(Empty<I, T>()) && Held(Empty<I, T>()) == multiset{}
  {
  }

  lemma DestroyedHoldsNothing<I, T>(s: State<I, T>)
    ensures Held(Destroyed(s)) == Destroyed(s).released
  {
    WithoutAll(s.data, Keys(s.data));
  }

  lemma {:induction false} WithoutAll<T>(data: seq<Entry<T>>, ids: set<int>)
    requires forall i :: 0 <= i < |data| ==> data[i].key in ids
    ensures Without(data, ids) == [] && Values(data, ids) == AllValues(data)
  {
    if data == [] {
    } else {
      WithoutAll(data[..|data| - 1], ids);
    }
  }

  lemma AddHeld<T>(data: seq<Entry<T>>, e: Entry<T>)
    ensures AllValues(data + [e]) == AllValues(data) + multiset{e.value}
  {
    assert (data + [e])[..|data|] == data;
  }

  lemma ReplaceHeld<I, T>(s: State<I, T>, key: int, value: T)
    ensures Has(s.data, key) ==>
              var at := Find(s.data, key);
              var after := s.(data := s.data[at := Entry(key, value)]);
              Held(after) + multiset{s.data[at].value} == Held(s) + multiset{value}
  {
    if Has(s.data, key) {
      var at, e := Find(s.data, key), Entry(key, value);
      ValuesReplaced(s.data, at, e);
      Exchange(AllValues(s.data[at := e]), s.data[at].value, AllValues(s.data), value, s.released);
    }
  }
}
