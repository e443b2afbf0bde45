/** base/id_map.h: a map from ids to values that may be changed while it is gone through. */
module IdMaps {
  import opened IdMapSpec
  import opened Options

  // ----- removing entries one at a time

  lemma {:induction false} WithoutNone<T>(data: seq<Entry<T>>, ids: set<int>)
    requires forall i :: 0 <= i < |data| ==> data[i].key !in ids
    ensures Without(data, ids) == data && Values(data, ids) == multiset{}
  {
    if data == [] {
    } else {
      var n := |data| - 1;
      assert data == data[..n] + [data[n]];
      hide Distinct;
      WithoutNone(data[..n], ids);
    }
  }

  ghost predicate Only<T>(data: seq<Entry<T>>, at: nat, ids: set<int>) {
    at < |data| && forall i :: 0 <= i < |data| ==> (data[i].key in ids <==> i == at)
  }

  lemma {:induction false} WithoutOne<T>(data: seq<Entry<T>>, at: nat, ids: set<int>)
    requires Only(data, at, ids)
    ensures Without(data, ids) == data[..at] + data[at + 1..]
  {
    var n := |data| - 1;
    assert Without(data, ids) == if n == at then Without(data[..n], ids) else Without(data[..n], ids) + [data[n]];
    if at == n {
      WithoutNone(data[..n], ids);
    } else {
      WithoutOne(data[..n], at, ids);
      CutOut(data, at, n);
    }
  }

  lemma CutOut<T>(s: seq<T>, at: nat, n: nat)
    requires at < n == |s| - 1
    ensures s[..n][..at] + s[..n][at + 1..] + [s[n]] == s[..at] + s[at + 1..]
  {
  }

  lemma {:induction false} ValuesOfOne<T>(data: seq<Entry<T>>, at: nat, ids: set<int>)
    requires Only(data, at, ids)
    ensures Values(data, ids) == multiset{data[at].value}
  {
    var n := |data| - 1;
    if at == n {
      WithoutNone(data[..n], ids);
    } else {
      ValuesOfOne(data[..n], at, ids);
    }
  }

  lemma {:induction false} WithoutInSteps<T>(data: seq<Entry<T>>, ids: set<int>, k: int)
    requires k !in ids
    ensures Without(Without(data, ids), {k}) == Without(data, ids + {k})
    ensures Values(data, ids) + Values(Without(data, ids), {k}) == Values(data, ids + {k})
  {
    if data == [] {
    } else {
      var last, rest := data[|data| - 1], data[..|data| - 1];
      WithoutInSteps(rest, ids, k);
      var r := Without(rest, ids) + [last];
      assert r[..|r| - 1] == Without(rest, ids);
    }
  }

  lemma PurgeKeepsDistinct<I, T>(s: State<I, T>, ids: set<int>, owns: bool)
    requires Distinct(s.data)
    ensures Distinct(Purge(s, ids, owns).data)
  {
  }

  method Pick<T>(s: set<T>) returns (x: T)
    requires s != {}
    ensures x in s
  {
    x :| x in s;
  }

  lemma NoValues<T>()
    ensures AllValues<T>([]) == multiset{}
  {
  }

  lemma OneMoreValue<T>(data: seq<Entry<T>>, i: nat)
    requires i < |data|
    ensures AllValues(data[..i + 1]) == AllValues(data[..i]) + multiset{data[i].value}
  {
    assert data[..i + 1][..i] == data[..i];
  }

  lemma PurgeNone<I, T>(s: State<I, T>, owns: bool)
    ensures Purge(s, {}, owns) == s
  {
    WithoutNone(s.data, {});
  }

  lemma RemoveIsPurge<I, T>(s: State<I, T>, id: int, owns: bool)
    requires s.iters == map[]
    ensures Apply(s, Event.Remove(id), owns) == Purge(s, {id}, owns)
  {
    if !Has(s.data, id) {
      WithoutNone(s.data, {id});
    }
  }

  lemma PurgeInSteps<I, T>(s: State<I, T>, ids: set<int>, k: int, owns: bool)
    requires k !in ids
    ensures Purge(Purge(s, ids, owns), {k}, owns) == Purge(s, ids + {k}, owns)
  {
    WithoutInSteps(s.data, ids, k);
  }

  lemma OneLessToPurge<I, T>(s: State<I, T>, ids: set<int>, left: set<int>, id: int, owns: bool)
    requires s.iters == map[] && Distinct(s.data) && id in left && left <= ids
    ensures var t := Purge(s, ids - left, owns);
      Distinct(t.data) && Apply(t, Event.Remove(id), owns) == Purge(s, ids - (left - {id}), owns)
  {
    PurgeKeepsDistinct(s, ids - left, owns);
    RemoveIsPurge(Purge(s, ids - left, owns), id, owns);
    PurgeInSteps(s, ids - left, id, owns);
    assert ids - (left - {id}) == ids - left + {id};
  }

  class IDMap<T> {
    var data: seq<Entry<T>>
    var removedIds: set<int>
    var iterationDepth: nat
    var nextId: int
    const owns: bool
    ghost var iterators: set<Iterator<T>>
    ghost var released: multiset<T>

    constructor (owns: bool)
      ensures Valid() && this.owns == owns && nextId == 1 && View() == State([], {}, map[], multiset{})
    {
      data, removedIds, iterationDepth, nextId := [], {}, 0, 1;
      this.owns := owns;
      iterators, released := {}, multiset{};
    }

    ghost function Iters(): map<Iterator<T>, Iter>
      reads this, iterators
    {
      map it | it in iterators :: Iter(it.start, it.iter, it.visits)
    }

    ghost function View(): State<Iterator<T>, T>
      reads this, iterators
    {
      State(data, removedIds, Iters(), released)
    }

    ghost predicate Valid()
      reads this, iterators
    {
      Linked() && Inv(View())
    }

    // There are as many iterators as the depth says, all on this map.
    ghost predicate Linked()
      reads this, iterators
    {
      iterationDepth == |iterators| && forall it :: it in iterators ==> it.owner == this
    }

    lemma ViewHas()
      ensures View().data == data && View().removed == removedIds && View().iters == Iters()
      ensures Iters().Keys == iterators
    {
    }

    lemma DepthCountsIterators()
      requires iterationDepth == |iterators|
      ensures View().iters == map[] <==> iterationDepth == 0
    {
      if iterators != {} {
        var it :| it in iterators;
        assert it in Iters();
      }
    }

    method Add(value: T) returns (id: int)
      requires Valid() && iterationDepth == 0 && !Has(data, nextId)
      modifies this
      ensures Valid() && id == old(nextId) && nextId == id + 1
      ensures View() == Apply(old(View()), Event.Add(id, value), owns)
    {
      id := nextId;
      AddWithID(value, id);
      nextId := nextId + 1;
    }

    method AddWithID(value: T, id: int)
      requires Valid() && iterationDepth == 0 && !Has(data, id)
      modifies this`data
      ensures Valid() && View() == Apply(old(View()), Event.Add(id, value), owns)
    {
      EventKeepsInv(View(), Event.Add(id, value), owns);
      data := data + [Entry(id, value)];
    }

    method Remove(id: int)
      requires Valid()
      modifies this`data, this`removedIds, this`released
      ensures Valid() && View() == Apply(old(View()), Event.Remove(id), owns)
    {
      EventKeepsInv(View(), Event.Remove(id), owns);
      RemoveNow(id);
    }

    // Remove, also while Compact is at work.
    method RemoveNow(id: int)
      requires Distinct(data) && iterationDepth == |iterators|
      modifies this`data, this`removedIds, this`released
      ensures View() == Apply(old(View()), Event.Remove(id), owns)
    {
      DepthCountsIterators();
      var i := Find(data, id);
      if i == |data| {
        return;
      }
      if iterationDepth == 0 {
        WithoutOne(data, i, {id});
        ValuesOfOne(data, i, {id});
        if owns {
          released := released + multiset{data[i].value};
        }
        data := data[..i] + data[i + 1..];
      } else {
        removedIds := removedIds + {id};
      }
    }

    method Replace(id: int, value: T) returns (previous: Option<T>)
      requires Valid()
      modifies this`data
      ensures Valid() && View() == Apply(old(View()), Event.Replace(id, value), owns)
      ensures previous == if Has(old(data), id) then Some(old(data)[Find(old(data), id)].value) else None
    {
      EventKeepsInv(View(), Event.Replace(id, value), owns);
      var i := Find(data, id);
      if i == |data| {
        return None;
      }
      previous := Some(data[i].value);
      hide Inv, Find;
      data := data[i := Entry(id, value)];
      assert Iters() == old(Iters());
    }

    method Clear()
      requires Valid()
      modifies this`data, this`removedIds, this`released
      ensures Valid() && View() == Apply(old(View()), Event.Clear, owns)
    {
      EventKeepsInv(View(), Event.Clear, owns);
      DepthCountsIterators();
      hide Inv, Purge, Keys;
      if iterationDepth == 0 {
        if owns {
          ReleaseAll();
        }
      } else {
        MarkAll();
      }
    }

    method ReleaseAll()
      modifies this`data, this`released
      ensures View() == Purge(old(View()), Keys(old(data)), true)
    {
      WithoutAll(data, Keys(data));
      hide Without, Values, AllValues, Keys;
      ghost var deleted := DeleteAll(data);
      released := released + deleted;
      data := [];
      assert Iters() == old(Iters());
    }

    // The loop that deletes each value.
    static method DeleteAll(data: seq<Entry<T>>) returns (ghost deleted: multiset<T>)
      ensures deleted == AllValues(data)
    {
      NoValues<T>();
      hide AllValues;
      deleted := multiset{};
      var i := 0;
      while i < |data|
        invariant 0 <= i <= |data| && deleted == AllValues(data[..i])
      {
        deleted := deleted + multiset{data[i].value};
        OneMoreValue(data, i);
        i := i + 1;
      }
      assert data[..i] == data;
    }

    method MarkAll()
      modifies this`removedIds
      ensures View() == old(View()).(removed := old(removedIds) + Keys(data))
    {
      ghost var iters := Iters();
      var i := 0;
      while i < |data|
        invariant 0 <= i <= |data| && removedIds == old(removedIds) + Keys(data[..i]) && Iters() == iters
      {
        removedIds := removedIds + {data[i].key};
        assert data[..i + 1] == data[..i] + [data[i]];
        assert Keys(data[..i + 1]) == Keys(data[..i]) + {data[i].key};
        i := i + 1;
      }
      assert data[..i] == data;
    }

    /** The value, also of an id that waits to be removed: what the map would have for it if
        those removals had not been asked for. */
    method Lookup(id: int) returns (r: Option<T>)
      requires Valid()
      ensures r.Some? <==> id in Live(View()) || id in removedIds
      ensures id in Live(View()) ==> r == Some(Live(View())[id])
      ensures var all := Live(View().(removed := {})); r == if id in all then Some(all[id]) else None
    {
      KeysOf(data, id);
      var i := Find(data, id);
      if i == |data| {
        return None;
      }
      return Some(data[i].value);
    }

    method Size() returns (n: nat)
      requires Valid()
      ensures n == |Live(View())|
    {
      SizeIsLive(View());
      n := |data| - |removedIds|;
    }

    method IsEmpty() returns (empty: bool)
      requires Valid()
      ensures empty <==> Live(View()) == map[]
    {
      var n := Size();
      empty := n == 0;
    }

    method Compact()
      requires iterationDepth == 0 && iterators == {} && Distinct(data)
      modifies this`data, this`removedIds, this`released
      ensures View() == Purge(old(View()), old(removedIds), owns).(removed := {})
    {
      ghost var ids := removedIds;
      var left := removedIds;
      assert ids - left == {};
      PurgeNone(View(), owns);
      DepthCountsIterators();
      hide Without, Values, Distinct, Apply, Purge;
      while left != {}
        invariant left <= ids
        invariant View() == Purge(old(View()), ids - left, owns)
        decreases left
      {
        var id := Pick(left);
        OneLessToPurge(old(View()), ids, left, id, owns);
        RemoveNow(id);
        left := left - {id};
      }
      assert ids - {} == ids;
      removedIds := {};
    }
  }

  lemma PlaceNew<I, T>(s: State<I, T>, i: I, at: nat)
    requires Inv(s) && i !in s.iters && at <= |s.data|
    ensures Inv(s.(iters := s.iters[i := StandOn(s.data, s.removed, at, [], at)]))
  {
    StandOnKeepsInv(s.data, s.removed, Iter(at, at, []), at);
    PlaceKeepsInv(s, i, StandOn(s.data, s.removed, at, [], at));
  }

  lemma BeginMoves<I, T>(s: State<I, T>, i: I, owns: bool)
    requires i !in s.iters
    ensures Allowed(s, Begin(i))
    ensures Apply(s, Begin(i), owns) == s.(iters := s.iters[i := StandOn(s.data, s.removed, 0, [], 0)])
  {
  }

  lemma CopyMoves<I, T>(s: State<I, T>, i: I, from: I, owns: bool)
    requires i !in s.iters && from in s.iters && s.iters[from].pos <= |s.data|
    ensures var pos := s.iters[from].pos;
            && Allowed(s, CopyOf(i, from))
            && Apply(s, CopyOf(i, from), owns) == s.(iters := s.iters[i := StandOn(s.data, s.removed, pos, [], pos)])
  {
  }

  lemma InRange<I, T>(s: State<I, T>, i: I)
    requires Inv(s) && i in s.iters
    ensures s.iters[i].pos <= |s.data|
  {
  }

  lemma PutTwice<K, V>(m: map<K, V>, k: K, v: V, w: V)
    ensures m[k := v][k := w] == m[k := w]
  {
  }

  lemma DestroyIs<I, T>(s: State<I, T>, i: I, owns: bool)
    requires Inv(s) && i in s.iters
    ensures Distinct(s.data) && Inv(Apply(s, Event.Destroy(i), owns))
    ensures var left := s.(iters := s.iters - {i});
      Apply(s, Event.Destroy(i), owns)
      == if left.iters == map[] then Purge(left, s.removed, owns).(removed := {}) else left
  {
    EventKeepsInv(s, Event.Destroy(i), owns);
  }

  lemma AdvanceMoves<I, T>(s: State<I, T>, i: I, it: Iter, owns: bool)
    requires Allowed(s, Event.Advance(i)) && s.iters[i] == it
    ensures Apply(s, Event.Advance(i), owns)
         == s.(iters := s.iters[i := StandOn(s.data, s.removed, it.start, it.visits, it.pos + 1)])
  {
  }

  class Iterator<T> {
    var owner: IDMap<T>
    var iter: nat
    ghost var start: nat
    ghost var visits: seq<nat>

    constructor (owner: IDMap<T>)
      requires owner.Valid()
      modifies owner`iterationDepth, owner`iterators
      ensures this.owner == owner && owner.Valid()
      ensures this !in old(owner.View()).iters
      ensures owner.View() == Apply(old(owner.View()), Begin(this), owner.owns)
    {
      this.owner := owner;
      iter, start, visits := 0, 0, [];
      new;
      hide Inv, StandOn, Apply, Allowed;
      BeginMoves(owner.View(), this, owner.owns);
      Init();
    }

    constructor Copy(other: Iterator<T>)
      requires other.owner.Valid() && other in other.owner.View().iters
      modifies other.owner`iterationDepth, other.owner`iterators
      ensures owner == other.owner && owner.Valid() && this !in old(other.owner.View()).iters
      ensures Allowed(old(other.owner.View()), CopyOf(this, other))
      ensures owner.View() == Apply(old(other.owner.View()), CopyOf(this, other), owner.owns)
    {
      InRange(other.owner.View(), other);
      owner := other.owner;
      iter, start, visits := other.iter, other.iter, [];
      new;
      hide Inv, StandOn, Apply, Allowed;
      CopyMoves(owner.View(), this, other, owner.owns);
      Init();
    }

    method Init()
      requires owner.Valid() && this !in owner.iterators && start == iter <= |owner.data| && visits == []
      modifies this`iter, this`visits, owner`iterationDepth, owner`iterators
      ensures owner.Valid() && this !in old(owner.View()).iters
      ensures var stood := StandOn(owner.data, owner.removedIds, start, [], old(iter));
              owner.View() == old(owner.View()).(iters := old(owner.View()).iters[this := stood])
    {
      PlaceNew(owner.View(), this, iter);
      hide Inv, StandOn, IDMap.View, IDMap.Iters;
      owner.ViewHas();
      ghost var stood := StandOn(owner.data, owner.removedIds, start, [], iter);
      PutTwice(owner.Iters(), this, Iter(start, iter, visits), stood);
      Attach();
      owner.ViewHas();
      SkipRemovedEntries();
    }

    // ++map_->iteration_depth_
    method Attach()
      requires owner.Linked() && this !in owner.iterators
      modifies owner`iterationDepth, owner`iterators
      ensures owner.Linked() && this in owner.iterators && this !in old(owner.Iters())
      ensures owner.View() == old(owner.View()).(iters := old(owner.Iters())[this := Iter(start, iter, visits)])
    {
      owner.iterationDepth := owner.iterationDepth + 1;
      owner.iterators := owner.iterators + {this};
      assert owner.Iters() == old(owner.Iters())[this := Iter(start, iter, visits)];
    }

    // --map_->iteration_depth_
    method Detach()
      requires owner.Linked() && this in owner.iterators
      modifies owner`iterationDepth, owner`iterators
      ensures owner.Linked() && (owner.iterationDepth == 0 <==> owner.View().iters == map[])
      ensures owner.View() == old(owner.View()).(iters := old(owner.Iters()) - {this})
    {
      owner.iterationDepth := owner.iterationDepth - 1;
      owner.iterators := owner.iterators - {this};
      assert owner.Iters() == old(owner.Iters()) - {this};
      owner.DepthCountsIterators();
    }

    method SkipRemovedEntries()
      requires owner.Linked() && this in owner.iterators && iter <= |owner.data|
      modifies this`iter, this`visits
      ensures var stood := StandOn(owner.data, owner.removedIds, start, old(visits), old(iter));
              owner.Linked() && owner.View() == old(owner.View()).(iters := old(owner.Iters())[this := stood])
    {
      while iter != |owner.data| && owner.data[iter].key in owner.removedIds
        invariant iter <= |owner.data| && visits == old(visits)
        invariant Skip(owner.data, owner.removedIds, iter) == Skip(owner.data, owner.removedIds, old(iter))
        decreases |owner.data| - iter
      {
        iter := iter + 1;
      }
      if iter < |owner.data| {
        visits := visits + [iter];
      }
      assert owner.Iters() == old(owner.Iters())[this := Iter(start, iter, visits)];
    }

    method IsAtEnd() returns (atEnd: bool)
      requires owner.Valid() && this in owner.iterators
      ensures atEnd <==> iter == |owner.data|
    {
      atEnd := iter == |owner.data|;
    }

    method GetCurrent() returns (key: int, value: T)
      requires owner.Valid() && iter < |owner.data|
      ensures Entry(key, value) == owner.data[iter]
    {
      key, value := owner.data[iter].key, owner.data[iter].value;
    }

    method Advance()
      requires owner.Valid() && Allowed(owner.View(), Event.Advance(this))
      modifies this`iter, this`visits
      ensures owner.Valid() && owner.View() == Apply(old(owner.View()), Event.Advance(this), owner.owns)
    {
      hide Inv, Skip, Apply, StandOn;
      EventKeepsInv(owner.View(), Event.Advance(this), owner.owns);
      AdvanceMoves(owner.View(), this, Iter(start, iter, visits), owner.owns);
      iter := iter + 1;
      assert owner.Iters() == old(owner.Iters())[this := Iter(start, iter, visits)];
      ghost var stood := StandOn(owner.data, owner.removedIds, start, visits, iter);
      PutTwice(old(owner.Iters()), this, Iter(start, iter, visits), stood);
      SkipRemovedEntries();
    }

    method Destroy()
      requires owner.Valid() && Allowed(owner.View(), Event.Destroy(this))
      modifies owner
      ensures owner.Valid() && owner.View() == Apply(old(owner.View()), Event.Destroy(this), owner.owns)
    {
      DestroyIs(owner.View(), this, owner.owns);
      hide Inv, Distinct, Apply, Purge;
      Detach();
      if owner.iterationDepth == 0 {
        owner.Compact();
      }
    }
  }
}
