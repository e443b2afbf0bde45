/** Positions in a list, as a pass over the list goes through them, and lists of numbers. */
module Positions {

  predicate Increasing(s: seq<nat>) {
    forall i, j :: 0 <= i < j < |s| ==> s[i] < s[j]
  }

  /** The positions from first up to end. */
  function Range(first: nat, end: nat): (r: set<nat>)
    ensures forall k :: k in r <==> first <= k < end
    decreases end - first
  {
    if first >= end then {} else {first} + Range(first + 1, end)
  }

  lemma CallsWithOneMore(calls: seq<nat>, k: nat, j: nat)
    ensures j in calls + [k] <==> j in calls || j == k
  {
  }

  /** The list without its first x. */
  function Without(list: seq<nat>, x: nat): seq<nat> {
    if list == [] then [] else if list[0] == x then list[1..] else [list[0]] + Without(list[1..], x)
  }

  ghost function Fresh(used: set<nat>): (i: nat)
    ensures i !in used
  {
    FreshExists(used);
    var i: nat :| i !in used;
    i
  }

  lemma FreshExists(s: set<nat>)
    ensures exists i: nat :: i !in s
  {
    var b := UpperBound(s);
    assert b !in s;
  }

  lemma UpperBound(s: set<nat>) returns (b: nat)
    ensures forall i :: i in s ==> i < b
  {
    if s == {} {
      b := 0;
    } else {
      var x :| x in s;
      var rest := UpperBound(s - {x});
      b := if rest <= x then x + 1 else rest;
      forall i | i in s
        ensures i < b
      {
        assert i == x || i in s - {x};
      }
    }
  }

  lemma Regroup<T>(a: seq<T>, b: seq<T>, c: seq<T>)
    ensures a + (b + c) == a + b + c
  {
  }
}
