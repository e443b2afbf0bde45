/** What a changed environment has to say: the lines of an environment block, the values they
    give to variables, and a set of changes to them. */
module EnvironmentSpec {
  import opened Options

  const NUL: char := '\0'

  /** A new value for a variable; the empty one takes the variable out. */
  datatype Change = Change(key: string, value: string)

  // What changes.find(key) finds, an index or the length.
  function Find(changes: seq<Change>, key: string): (i: nat)
    ensures i <= |changes| && (i < |changes| ==> changes[i].key == key)
    ensures forall j :: 0 <= j < i ==> changes[j].key != key
  {
    if changes == [] then 0
    else if changes[0].key == key then 0
    else 1 + Find(changes[1..], key)
  }

  predicate Changed(changes: seq<Change>, key: string) {
    Find(changes, key) < |changes|
  }

  predicate Distinct(changes: seq<Change>) {
    forall i, j :: 0 <= i < j < |changes| ==> changes[i].key != changes[j].key
  }

  // Up to the first '='.
  function KeyOf(line: string): (key: string)
    ensures |key| <= |line| && key == line[..|key|] && '=' !in key
    ensures |key| < |line| ==> line[|key|] == '='
  {
    if line == "" || line[0] == '=' then "" else [line[0]] + KeyOf(line[1..])
  }

  /** The value a variable has: that of the first line for it. */
  function Value(lines: seq<string>, key: string): Option<string> {
    if lines == [] then None
    else if KeyOf(lines[0]) == key && |key| < |lines[0]| then Some(lines[0][|key| + 1..])
    else Value(lines[1..], key)
  }

  // ----- the changed lines

  function Kept(lines: seq<string>, changes: seq<Change>): seq<string> {
    if lines == [] then []
    else
      var last, rest := lines[|lines| - 1], Kept(lines[..|lines| - 1], changes);
      if Changed(changes, KeyOf(last)) then rest else rest + [last]
  }

  function LineFor(c: Change): string {
    c.key + "=" + c.value
  }

  function Added(changes: seq<Change>): seq<string> {
    if changes == [] then []
    else
      var last, rest := changes[|changes| - 1], Added(changes[..|changes| - 1]);
      if last.value == "" then rest else rest + [LineFor(last)]
  }

  /** The lines that are not for changed variables, in their order, and then one for each
      variable that gets a value. */
  function Altered(lines: seq<string>, changes: seq<Change>): seq<string> {
    Kept(lines, changes) + Added(changes)
  }

  /** What a variable is to have. */
  function Wanted(lines: seq<string>, changes: seq<Change>, key: string): Option<string> {
    if !Changed(changes, key) then Value(lines, key)
    else
      var value := changes[Find(changes, key)].value;
      if value == "" then None else Some(value)
  }

  // ----- lines mean an update of the variables

  lemma {:induction false} ValueOfBoth(a: seq<string>, b: seq<string>, key: string)
    ensures Value(a + b, key) == if Value(a, key).Some? then Value(a, key) else Value(b, key)
  {
    if a == [] {
      assert a + b == b;
    } else {
      assert (a + b)[1..] == a[1..] + b;
      ValueOfBoth(a[1..], b, key);
    }
  }

  lemma {:induction false} KeptValue(lines: seq<string>, changes: seq<Change>, key: string)
    ensures Value(Kept(lines, changes), key) == if Changed(changes, key) then None else Value(lines, key)
  {
    if lines == [] {
    } else {
      var n := |lines| - 1;
      KeptValue(lines[..n], changes, key);
      assert lines == lines[..n] + [lines[n]];
      ValueOfBoth(lines[..n], [lines[n]], key);
      ValueOfBoth(Kept(lines[..n], changes), [lines[n]], key);
    }
  }

  lemma {:induction false} KeyOfLine(key: string, value: string)
    requires '=' !in key
    ensures KeyOf(key + "=" + value) == key
  {
    if key == "" {
    } else {
      KeyOfLine(key[1..], value);
      assert (key + "=" + value)[1..] == key[1..] + "=" + value;
    }
  }

  /** A line gives the variable in front of its first '=' what is behind that. */
  lemma LineMeans(key: string, value: string, lines: seq<string>)
    requires '=' !in key
    ensures Value([key + "=" + value] + lines, key) == Some(value)
  {
    KeyOfLine(key, value);
    assert (key + "=" + value)[|key| + 1..] == value;
  }

  lemma {:induction false} AddedValue(changes: seq<Change>, key: string)
    requires Distinct(changes)
    requires forall i :: 0 <= i < |changes| && changes[i].value != "" ==> '=' !in changes[i].key
    ensures Value(Added(changes), key)
         == if Changed(changes, key) && changes[Find(changes, key)].value != ""
            then Some(changes[Find(changes, key)].value) else None
  {
    if changes == [] {
    } else {
      var n := |changes| - 1;
      var last, rest := changes[n], changes[..n];
      AddedValue(rest, key);
      FindInRest(changes, key);
      if last.value != "" {
        KeyOfLine(last.key, last.value);
        ValueOfBoth(Added(rest), [LineFor(last)], key);
        assert LineFor(last)[|last.key| + 1..] == last.value;
      }
    }
  }

  lemma FindInRest(changes: seq<Change>, key: string)
    requires changes != [] && Distinct(changes)
    ensures var n := |changes| - 1;
            && (changes[n].key == key ==> Find(changes, key) == n && Find(changes[..n], key) == n)
            && (changes[n].key != key ==> Changed(changes, key) == Changed(changes[..n], key))
            && (Changed(changes[..n], key) ==> Find(changes, key) == Find(changes[..n], key))
  {
    var n := |changes| - 1;
    var i, j := Find(changes, key), Find(changes[..n], key);
    if i < n {
      assert changes[..n][i].key == key;
    }
    if j < n {
      assert changes[j].key == key;
    }
  }

  predicate NoEqualsSigns(changes: seq<Change>) {
    forall i :: 0 <= i < |changes| && changes[i].value != "" ==> '=' !in changes[i].key
  }

  /** The changed lines give every variable the value it is to have, exactly if no variable
      that gets a value has an equals sign in its name. */
  lemma AlteredIsUpdate(lines: seq<string>, changes: seq<Change>)
    requires Distinct(changes)
    ensures (forall key :: Value(Altered(lines, changes), key) == Wanted(lines, changes, key))
       <==> NoEqualsSigns(changes)
  {
    if NoEqualsSigns(changes) {
      forall key ensures Value(Altered(lines, changes), key) == Wanted(lines, changes, key) {
        ValueOfBoth(Kept(lines, changes), Added(changes), key);
        KeptValue(lines, changes, key);
        AddedValue(changes, key);
      }
    } else {
      var i :| 0 <= i < |changes| && changes[i].value != "" && '=' in changes[i].key;
      var key := changes[i].key;
      NoValueForEqualsSign(Altered(lines, changes), key);
      assert Find(changes, key) == i;
      assert Wanted(lines, changes, key) == Some(changes[i].value);
    }
  }

  lemma {:induction false} NoValueForEqualsSign(lines: seq<string>, key: string)
    requires '=' in key
    ensures Value(lines, key) == None
  {
    if lines == [] {
    } else {
      NoValueForEqualsSign(lines[1..], key);
    }
  }
}
