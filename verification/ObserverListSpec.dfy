/** The operations of base/observer_list.h on values, and what they do to the abstract list
    of registered observers. An observer is known by a number; a slot of the vector holds an
    observer or null. */
module ObserverListSpec {
  import opened Options
  import opened Positions

  type Slots = seq<Option<nat>>

  // observers_, notify_depth_ and type_.
  datatype List = List(observers: Slots, depth: nat, existingOnly: bool)

  // std::find; the length if there is none.
  function IndexOf(s: Slots, o: nat): (k: nat)
    ensures k <= |s| && Some(o) !in s[..k] && (k < |s| ==> s[k] == Some(o))
    ensures k < |s| <==> Some(o) in s
  {
    if s == [] then 0
    else if s[0] == Some(o) then 0
    else
      assert s[..1 + IndexOf(s[1..], o)] == [s[0]] + s[1..][..IndexOf(s[1..], o)];
      1 + IndexOf(s[1..], o)
  }

  // AddObserver; a second registration is refused.
  function Add(list: List, o: nat): List {
    if Some(o) in list.observers then list
    else list.(observers := list.observers + [Some(o)])
  }

  // RemoveObserver; while a pass is on, the slot is kept and nulled.
  function Remove(list: List, o: nat): List {
    var k := IndexOf(list.observers, o);
    if k == |list.observers| then list
    else if list.depth > 0 then list.(observers := list.observers[k := None])
    else list.(observers := list.observers[..k] + list.observers[k + 1..])
  }

  function Nulls(n: nat): (s: Slots)
    ensures |s| == n && forall k :: 0 <= k < n ==> s[k] == None
  {
    seq(n, _ => None)
  }

  function Clear(list: List): List {
    list.(observers := if list.depth > 0 then Nulls(|list.observers|) else [])
  }

  // Compact: std::remove of the nulls, and erase.
  function Compacted(s: Slots): (r: Slots)
    ensures None !in r && |r| <= |s|
    ensures None !in s ==> r == s
  {
    if s == [] then []
    else if s[0] == None then Compacted(s[1..])
    else
      var rest := Compacted(s[1..]);
      assert s == [s[0]] + s[1..];
      [s[0]] + rest
  }

  // An iterator's index_ and max_index_; None is the largest size_t.
  datatype Iter = Iter(index: nat, maxIndex: Option<nat>)

  // Iterator::Iterator
  function Begin(list: List): (List, Iter) {
    (list.(depth := list.depth + 1), Iter(0, if list.existingOnly then Some(|list.observers|) else None))
  }

  // Iterator::~Iterator
  function End(list: List): List
    requires list.depth > 0
  {
    if list.depth == 1 then list.(depth := 0, observers := Compacted(list.observers))
    else list.(depth := list.depth - 1)
  }

  function Limit(list: List, it: Iter): (m: nat)
    ensures m <= |list.observers|
  {
    if it.maxIndex.Some? && it.maxIndex.value < |list.observers| then it.maxIndex.value else |list.observers|
  }

  // The first index from `index` on, below the limit, whose slot is not null.
  function Skip(s: Slots, index: nat, limit: nat): (k: nat)
    requires limit <= |s|
    ensures k >= index && (k < limit ==> s[k] != None)
    decreases limit - index
  {
    if index < limit && s[index] == None then Skip(s, index + 1, limit) else index
  }

  lemma {:induction false} SkipsNulls(s: Slots, index: nat, limit: nat, j: nat)
    requires limit <= |s| && index <= j < Skip(s, index, limit)
    ensures j < limit && s[j] == None
    decreases limit - index
  {
    if index == j {
    } else {
      SkipsNulls(s, index + 1, limit, j);
    }
  }

  // Iterator::GetNext
  function Next(list: List, it: Iter): (r: (Option<nat>, Iter)) {
    var k := Skip(list.observers, it.index, Limit(list, it));
    if k < Limit(list, it) then (list.observers[k], it.(index := k + 1)) else (None, it.(index := k))
  }

  // ----- the abstract list

  // The registered observers, in registration order.
  function Live(s: Slots): seq<nat> {
    if s == [] then [] else (if s[0].Some? then [s[0].value] else []) + Live(s[1..])
  }

  predicate NoDuplicates(s: Slots) {
    s == [] || ((s[0].Some? ==> s[0] !in s[1..]) && NoDuplicates(s[1..]))
  }

  // No observer is in two slots, and nulls are left only while a pass is on.
  predicate WellFormed(list: List) {
    NoDuplicates(list.observers) && (list.depth == 0 ==> None !in list.observers)
  }

  lemma {:induction false} LiveAppend(s: Slots, t: Slots)
    ensures Live(s + t) == Live(s) + Live(t)
  {
    if s == [] {
      assert s + t == t;
    } else {
      assert (s + t)[1..] == s[1..] + t;
      LiveAppend(s[1..], t);
      var first := if s[0].Some? then [s[0].value] else [];
      assert first + (Live(s[1..]) + Live(t)) == first + Live(s[1..]) + Live(t);
    }
  }

  lemma {:induction false} LiveMembers(s: Slots, o: nat)
    ensures o in Live(s) <==> Some(o) in s
  {
    if s == [] {
    } else {
      LiveMembers(s[1..], o);
      assert s == [s[0]] + s[1..];
    }
  }

  lemma {:induction false} LiveCompacted(s: Slots)
    ensures Live(Compacted(s)) == Live(s)
    ensures NoDuplicates(s) ==> NoDuplicates(Compacted(s))
  {
    if s == [] {
    } else {
      LiveCompacted(s[1..]);
      var rest := Compacted(s[1..]);
      if s[0].Some? {
        LiveMembers(s[1..], s[0].value);
        LiveMembers(rest, s[0].value);
        assert ([s[0]] + rest)[1..] == rest;
      }
    }
  }

  lemma {:induction false} LiveOfNulls(n: nat)
    ensures Live(Nulls(n)) == []
  {
    if n == 0 {
    } else {
      assert Nulls(n)[1..] == Nulls(n - 1);
      LiveOfNulls(n - 1);
    }
  }

  lemma {:induction false} LiveAllSome(s: Slots)
    requires None !in s
    ensures |Live(s)| == |s| && forall k :: 0 <= k < |s| ==> s[k] == Some(Live(s)[k])
  {
    if s == [] {
    } else {
      assert s[0] in s;
      LiveAllSome(s[1..]);
    }
  }

  lemma WithoutBehind(s: Slots, o: nat)
    requires s != [] && s[0] != Some(o)
    ensures Without(Live(s), o) == (if s[0].Some? then [s[0].value] else []) + Without(Live(s[1..]), o)
  {
    if s[0].Some? {
      assert Live(s)[1..] == Live(s[1..]);
    } else {
      assert Live(s) == Live(s[1..]);
    }
  }

  lemma {:induction false} NulledIsWithout(s: Slots, o: nat)
    requires Some(o) in s
    ensures Live(s[IndexOf(s, o) := None]) == Without(Live(s), o)
  {
    var k := IndexOf(s, o);
    if k == 0 {
      assert s[0 := None][1..] == s[1..];
    } else {
      assert s == [s[0]] + s[1..];
      NulledIsWithout(s[1..], o);
      assert s[k := None][1..] == s[1..][k - 1 := None];
      WithoutBehind(s, o);
    }
  }

  lemma {:induction false} ErasedIsWithout(s: Slots, o: nat)
    requires Some(o) in s
    ensures var k := IndexOf(s, o); Live(s[..k] + s[k + 1..]) == Without(Live(s), o)
  {
    var k := IndexOf(s, o);
    if k == 0 {
      assert s[..0] + s[1..] == s[1..];
    } else {
      assert s == [s[0]] + s[1..];
      ErasedIsWithout(s[1..], o);
      var t := s[..k] + s[k + 1..];
      assert t[0] == s[0] && t[1..] == s[1..][..k - 1] + s[1..][k..];
      WithoutBehind(s, o);
    }
  }

  lemma {:induction false} NulledKeepsDistinct(s: Slots, k: nat)
    requires NoDuplicates(s) && k < |s|
    ensures NoDuplicates(s[k := None])
  {
    var t := s[k := None];
    if k == 0 {
      assert t[1..] == s[1..];
    } else {
      NulledKeepsDistinct(s[1..], k - 1);
      assert t[1..] == s[1..][k - 1 := None];
    }
  }

  lemma {:induction false} ErasedKeepsDistinct(s: Slots, k: nat)
    requires k < |s|
    ensures NoDuplicates(s) ==> NoDuplicates(s[..k] + s[k + 1..])
    ensures None !in s ==> None !in s[..k] + s[k + 1..]
  {
    var t := s[..k] + s[k + 1..];
    if k == 0 {
      assert t == s[1..];
    } else {
      ErasedKeepsDistinct(s[1..], k - 1);
      assert t[1..] == s[1..][..k - 1] + s[1..][k..];
      if s[0] in t[1..] {
        var j :| 0 <= j < |t[1..]| && t[1..][j] == s[0];
        assert t[1..][j] == s[1..][if j < k - 1 then j else j + 1];
      }
    }
  }

  lemma {:induction false} AppendedHasNoDuplicates(s: Slots, x: Option<nat>)
    requires NoDuplicates(s) && x !in s
    ensures NoDuplicates(s + [x])
  {
    if s == [] {
      assert [x][1..] == [];
    } else {
      assert s == [s[0]] + s[1..];
      assert (s + [x])[1..] == s[1..] + [x];
      AppendedHasNoDuplicates(s[1..], x);
    }
  }

  lemma {:induction false} NullsHaveNoDuplicates(n: nat)
    ensures NoDuplicates(Nulls(n))
  {
    if n == 0 {
    } else {
      assert Nulls(n)[1..] == Nulls(n - 1);
      NullsHaveNoDuplicates(n - 1);
    }
  }

  /** Each operation keeps the list well formed and does to the abstract list what its name
      says; passes come and go without changing it. */
  lemma OperationsRefine(list: List, o: nat)
    requires WellFormed(list)
    ensures WellFormed(Add(list, o)) && WellFormed(Remove(list, o)) && WellFormed(Clear(list))
    ensures WellFormed(Begin(list).0) && (list.depth > 0 ==> WellFormed(End(list)))
    ensures Live(Add(list, o).observers)
         == if o in Live(list.observers) then Live(list.observers) else Live(list.observers) + [o]
    ensures Live(Remove(list, o).observers) == Without(Live(list.observers), o)
    ensures Live(Clear(list).observers) == []
    ensures Live(Begin(list).0.observers) == Live(list.observers)
    ensures list.depth > 0 ==> Live(End(list).observers) == Live(list.observers)
  {
    var s := list.observers;
    hide NoDuplicates, Live, Compacted, Without, Nulls, IndexOf;
    LiveMembers(s, o);
    LiveAppend(s, [Some(o)]);
    OneLive(o);
    LiveOfNulls(|s|);
    NullsHaveNoDuplicates(|s|);
    NothingIsLive();
    LiveCompacted(s);
    FoundOrNot(s, o);
    if Some(o) in s {
      NulledIsWithout(s, o);
      ErasedIsWithout(s, o);
      ErasedKeepsDistinct(s, IndexOf(s, o));
      NulledKeepsDistinct(s, IndexOf(s, o));
    } else {
      NotThere(Live(s), o);
      AppendedHasNoDuplicates(s, Some(o));
    }
  }

  lemma FoundOrNot(s: Slots, o: nat)
    ensures IndexOf(s, o) < |s| <==> Some(o) in s
    ensures IndexOf(s, o) <= |s| && None !in Compacted(s)
  {
  }

  lemma OneLive(o: nat)
    ensures Live([Some(o)]) == [o]
  {
    assert [Some(o)][1..] == [];
  }

  lemma NothingIsLive()
    ensures Live([]) == [] && NoDuplicates([])
  {
  }

  lemma {:induction false} NotThere(list: seq<nat>, o: nat)
    requires o !in list
    ensures Without(list, o) == list
  {
    if list == [] {
    } else {
      NotThere(list[1..], o);
      assert list == [list[0]] + list[1..];
    }
  }

  lemma {:induction false} DistinctSlots(s: Slots, i: nat, j: nat)
    requires NoDuplicates(s) && i < j < |s| && s[i].Some?
    ensures s[i] != s[j]
  {
    if i > 0 {
      DistinctSlots(s[1..], i - 1, j - 1);
    } else {
      assert s[j] == s[1..][j - 1];
    }
  }

  /** Between passes the vector is the abstract list itself: no nulls, no duplicates. */
  lemma VectorIsList(list: List)
    requires WellFormed(list) && list.depth == 0
    ensures var live := Live(list.observers);
      && |list.observers| == |live|
      && (forall k :: 0 <= k < |live| ==> list.observers[k] == Some(live[k]))
      && (forall i, j :: 0 <= i < j < |live| ==> live[i] != live[j])
  {
    var live := Live(list.observers);
    LiveAllSome(list.observers);
    forall i, j | 0 <= i < j < |live|
      ensures live[i] != live[j]
    {
      DistinctSlots(list.observers, i, j);
    }
  }
}
