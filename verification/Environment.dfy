/** base/environment.cc: AlterEnvironment for Windows, where an environment is one block of
    lines, and for POSIX, where it is an array of pointers to lines. */
module Environment {
  import opened Arithmetic
  import opened EnvironmentSpec

  // ----- lines in memory

  /** Where the string that starts at `from` ends. */
  ghost function NulAt(env: string, from: nat): (n: nat)
    requires from <= |env|
    ensures from <= n <= |env| && (n < |env| ==> env[n] == NUL)
    ensures NUL !in env[from..n]
    decreases |env| - from
  {
    if from == |env| || env[from] == NUL then from
    else
      var n := NulAt(env, from + 1);
      assert env[from..n] == [env[from]] + env[from + 1..n];
      n
  }

  ghost function CString(env: string, from: nat): string
    requires from <= |env|
  {
    env[from..NulAt(env, from)]
  }

  /** The lines of the block that starts at `from`. */
  ghost function Lines(env: string, from: nat): seq<string>
    requires from <= |env|
    decreases |env| - from
  {
    if from == |env| || env[from] == NUL then []
    else
      var n := NulAt(env, from);
      [env[from..n]] + if n == |env| then [] else Lines(env, n + 1)
  }

  /** Each line of the block ends in a NUL, and another follows the last line. */
  ghost predicate Terminated(env: string, from: nat)
    decreases |env| - from
  {
    from < |env| && (env[from] == NUL || (NulAt(env, from) < |env| && Terminated(env, NulAt(env, from) + 1)))
  }

  lemma FirstNul(env: string, from: nat)
    requires from <= |env|
    ensures forall i :: from <= i < NulAt(env, from) ==> env[i] != NUL
  {
    var n := NulAt(env, from);
    forall i | from <= i < n
      ensures env[i] != NUL
    {
      assert env[i] == env[from..n][i - from];
    }
  }

  lemma {:induction false} KeyEnds(line: string, k: nat)
    requires k <= |line| && (forall i :: 0 <= i < k ==> line[i] != '=') && (k < |line| ==> line[k] == '=')
    ensures KeyOf(line) == line[..k]
  {
    if k == 0 {
    } else {
      KeyEnds(line[1..], k - 1);
      assert line[..k] == [line[0]] + line[1..][..k - 1];
    }
  }

  lemma StartOfSlice(env: string, from: nat, cur: nat, n: nat)
    requires from + cur <= n <= |env|
    ensures env[from..from + cur] == env[from..n][..cur]
  {
  }

  method ParseEnvLine(env: string, from: nat) returns (key: string, length: nat)
    requires from <= |env| && NulAt(env, from) < |env|
    ensures length == |CString(env, from)| + 1 && key == KeyOf(CString(env, from))
  {
    ghost var n := NulAt(env, from);
    FirstNul(env, from);
    hide NulAt, KeyOf;
    var cur := 0;
    while env[from + cur] != NUL && env[from + cur] != '='
      invariant from + cur <= n && forall i :: from <= i < from + cur ==> env[i] != '='
      decreases n - cur
    {
      cur := cur + 1;
    }
    key := env[from..from + cur];
    KeyEnds(env[from..n], cur);
    StartOfSlice(env, from, cur, n);
    while env[from + cur] != NUL
      invariant from + cur <= n
      decreases n - cur
    {
      cur := cur + 1;
    }
    length := cur + 1;
  }

  // ----- lines put after one another

  ghost function Storage(lines: seq<string>): string {
    if lines == [] then "" else Storage(lines[..|lines| - 1]) + lines[|lines| - 1] + [NUL]
  }

  lemma StorageOfMore(lines: seq<string>, line: string)
    ensures Storage(lines + [line]) == Storage(lines) + (line + [NUL])
  {
    assert (lines + [line])[..|lines|] == lines;
  }

  lemma NextLine(env: string, from: nat)
    requires Terminated(env, from) && env[from] != NUL
    ensures var n := NulAt(env, from);
            && from < n < n + 1 < |env| && Terminated(env, n + 1)
            && Lines(env, from) == [CString(env, from)] + Lines(env, n + 1)
            && env[from..n + 1] == CString(env, from) + [NUL]
  {
  }

  lemma LastLine(env: string, from: nat)
    requires from < |env| && env[from] == NUL
    ensures Lines(env, from) == []
  {
  }

  lemma KeptWithOneMore(lines: seq<string>, line: string, changes: seq<Change>)
    ensures Kept(lines + [line], changes)
         == if Changed(changes, KeyOf(line)) then Kept(lines, changes) else Kept(lines, changes) + [line]
  {
    assert (lines + [line])[..|lines|] == lines;
  }

  // A block of these lines. There are two NULs at the end even if there is no line.
  ghost function Block(lines: seq<string>): string {
    (if Storage(lines) == "" then [NUL] else Storage(lines)) + [NUL]
  }

  method AlterBlock(env: string, changes: seq<Change>) returns (result: string)
    requires Terminated(env, 0)
    ensures result == Block(Altered(Lines(env, 0), changes))
  {
    result := CopyUnmodified(env, changes);
    result := AppendChanges(result, Kept(Lines(env, 0), changes), changes);
    if result == "" {
      result := result + [NUL];
    }
    result := result + [NUL];
  }

  method CopyUnmodified(env: string, changes: seq<Change>) returns (result: string)
    requires Terminated(env, 0)
    ensures result == Storage(Kept(Lines(env, 0), changes))
  {
    result := "";
    var curEnv := 0;
    ghost var done: seq<string> := [];
    NothingYet(changes);
    hide *;
    StartOfBlock(env);
    assert done + Lines(env, 0) == Lines(env, 0);
    while env[curEnv] != NUL
      invariant curEnv < |env| && Terminated(env, curEnv)
      invariant Lines(env, 0) == done + Lines(env, curEnv)
      invariant result == Storage(Kept(done, changes))
      decreases |env| - curEnv
    {
      NextLine(env, curEnv);
      var key, lineLength := ParseEnvLine(env, curEnv);
      ghost var line := CString(env, curEnv);
      KeptWithOneMore(done, line, changes);
      if !Changed(changes, key) {
        StorageOfMore(Kept(done, changes), line);
        result := result + env[curEnv..curEnv + lineLength];
      }
      assert done + ([line] + Lines(env, curEnv + lineLength)) == done + [line] + Lines(env, curEnv + lineLength);
      done := done + [line];
      curEnv := curEnv + lineLength;
    }
    LastLine(env, curEnv);
    assert done + [] == done;
  }

  lemma StartOfBlock(env: string)
    requires Terminated(env, 0)
    ensures env != ""
  {
  }

  lemma NothingYet(changes: seq<Change>)
    ensures Storage(Kept([], changes)) == ""
  {
  }

  method AppendChanges(start: string, ghost kept: seq<string>, changes: seq<Change>) returns (result: string)
    requires start == Storage(kept)
    ensures result == Storage(kept + Added(changes))
  {
    result := start;
    ghost var sofar := kept;
    var i := 0;
    NothingAdded(kept, changes);
    hide *;
    while i < |changes|
      invariant i <= |changes| && sofar == kept + Added(changes[..i]) && result == Storage(sofar)
    {
      var c := changes[i];
      AddedWithOneMore(kept, changes, i);
      if c.value != "" {
        StorageOfMore(sofar, LineFor(c));
        result := PushLine(result, c);
        sofar := sofar + [LineFor(c)];
      }
      i := i + 1;
    }
    assert changes[..i] == changes;
  }

  lemma NothingAdded(kept: seq<string>, changes: seq<Change>)
    ensures kept + Added(changes[..0]) == kept
  {
  }

  method PushLine(start: string, c: Change) returns (result: string)
    ensures result == start + (LineFor(c) + [NUL])
  {
    result := start + c.key;
    result := result + ['='];
    result := result + c.value;
    result := result + [NUL];
    assert result == start + (c.key + ['='] + c.value + [NUL]);
  }

  lemma AddedWithOneMore(kept: seq<string>, changes: seq<Change>, i: nat)
    requires i < |changes|
    ensures var c, sofar := changes[i], kept + Added(changes[..i]);
            kept + Added(changes[..i + 1]) == if c.value == "" then sofar else sofar + [LineFor(c)]
  {
    assert changes[..i + 1][..i] == changes[..i];
  }

  // ----- reading the block back

  predicate Plain(line: string) {
    NUL !in line
  }

  predicate AllPlain(lines: seq<string>) {
    forall i :: 0 <= i < |lines| ==> Plain(lines[i])
  }

  /** No NUL in a variable that gets a value, or in the value. */
  predicate NoNuls(changes: seq<Change>) {
    forall i :: 0 <= i < |changes| && changes[i].value != "" ==> NUL !in changes[i].key && NUL !in changes[i].value
  }

  lemma {:induction false} StorageFromFront(lines: seq<string>)
    requires lines != []
    ensures Storage(lines) == lines[0] + ([NUL] + Storage(lines[1..]))
  {
    var n := |lines| - 1;
    if n == 0 {
      assert lines[..n] == lines[1..] == [];
    } else {
      StorageFromFront(lines[..n]);
      assert lines[1..][..n - 1] == lines[..n][1..];
      LastLineBehind(lines[0], Storage(lines[..n][1..]), lines[n]);
    }
  }

  lemma LastLineBehind(first: string, storage: string, last: string)
    ensures first + ([NUL] + storage) + last + [NUL] == first + ([NUL] + (storage + last + [NUL]))
  {
  }

  lemma EndOf(env: string, from: nat, line: string, rest: string)
    requires from <= |env| && NUL !in line && env[from..] == line + ([NUL] + rest)
    ensures from + |line| < |env| && NulAt(env, from) == from + |line|
    ensures CString(env, from) == line && env[from + |line| + 1..] == rest
  {
    var n := NulAt(env, from);
    FirstNul(env, from);
    assert env[from + |line|] == env[from..][|line|] == NUL;
    forall i | from <= i < from + |line|
      ensures env[i] != NUL
    {
      assert env[i] == env[from..][i - from] == line[i - from];
    }
    assert env[from..n] == env[from..][..|line|];
  }

  lemma NextLineIs(env: string, from: nat, n: nat, line: string)
    requires from <= |env| && from < n < |env| && n == NulAt(env, from)
    requires line == CString(env, from) && Terminated(env, n + 1)
    ensures Terminated(env, from) && Lines(env, from) == [line] + Lines(env, n + 1)
  {
  }

  /** From `from` on there are these lines, each with its NUL, and one more NUL. */
  ghost predicate Holds(env: string, from: nat, lines: seq<string>) {
    from <= |env| && env[from..] == Storage(lines) + [NUL] && AllPlain(lines) && "" !in lines
  }

  lemma NothingLeft(env: string, from: nat)
    requires Holds(env, from, [])
    ensures from <= |env| && Lines(env, from) == [] && Terminated(env, from)
  {
    assert env[from] == env[from..][0];
  }

  lemma {:induction false} LinesOfStorage(env: string, from: nat, lines: seq<string>)
    requires Holds(env, from, lines)
    ensures from <= |env| && Lines(env, from) == lines && Terminated(env, from)
    decreases |lines|
  {
    hide *;
    if lines == [] {
      NothingLeft(env, from);
    } else {
      FirstLine(env, from, lines);
      var n := from + |lines[0]|;
      LinesOfStorage(env, n + 1, lines[1..]);
      NextLineIs(env, from, n, lines[0]);
    }
  }

  lemma FirstLine(env: string, from: nat, lines: seq<string>)
    requires Holds(env, from, lines) && lines != []
    ensures lines == [lines[0]] + lines[1..]
    ensures var n := from + |lines[0]|;
            && from < n < |env| && n == NulAt(env, from) && lines[0] == CString(env, from)
            && Holds(env, n + 1, lines[1..])
  {
    StorageFromFront(lines);
    var line, rest := lines[0], Storage(lines[1..]) + [NUL];
    assert line in lines && Plain(line) && AllPlain(lines[1..]) && "" !in lines[1..];
    hide Storage, AllPlain, NulAt, CString;
    assert env[from..] == line + ([NUL] + rest);
    EndOf(env, from, line, rest);
  }

  lemma {:induction false} LinesArePlain(env: string, from: nat)
    requires from <= |env|
    ensures AllPlain(Lines(env, from)) && "" !in Lines(env, from)
    decreases |env| - from
  {
    if from == |env| || env[from] == NUL || NulAt(env, from) == |env| {
    } else {
      LinesArePlain(env, NulAt(env, from) + 1);
    }
  }

  lemma {:induction false} KeptArePlain(lines: seq<string>, changes: seq<Change>)
    requires AllPlain(lines)
    ensures AllPlain(Kept(lines, changes)) && ("" !in lines ==> "" !in Kept(lines, changes))
  {
    if lines == [] {
    } else {
      var n := |lines| - 1;
      assert lines[n] in lines && ("" !in lines ==> "" !in lines[..n]) && AllPlain(lines[..n]);
      KeptArePlain(lines[..n], changes);
      hide AllPlain, Changed, KeyOf;
      AllPlainWithOneMore(Kept(lines[..n], changes), lines[n]);
    }
  }

  lemma {:induction false} AddedArePlain(changes: seq<Change>)
    ensures AllPlain(Added(changes)) <==> NoNuls(changes)
    ensures "" !in Added(changes)
  {
    if changes == [] {
    } else {
      var n := |changes| - 1;
      var rest, last := changes[..n], changes[n];
      AddedArePlain(rest);
      assert NoNuls(changes) <==> NoNuls(rest) && (last.value != "" ==> NUL !in last.key && NUL !in last.value);
      PlainLine(last);
      if last.value != "" {
        AllPlainWithOneMore(Added(rest), LineFor(last));
      }
    }
  }

  lemma AllPlainWithOneMore(lines: seq<string>, line: string)
    ensures AllPlain(lines + [line]) <==> AllPlain(lines) && Plain(line)
  {
    if AllPlain(lines + [line]) {
      assert (lines + [line])[|lines|] == line;
      forall i | 0 <= i < |lines| ensures Plain(lines[i]) {
        assert (lines + [line])[i] == lines[i];
      }
    }
  }

  lemma PlainLine(c: Change)
    ensures Plain(LineFor(c)) <==> NUL !in c.key && NUL !in c.value
  {
    var line := LineFor(c);
    if NUL in c.key {
      var i :| 0 <= i < |c.key| && c.key[i] == NUL;
      assert line[i] == NUL;
    }
    if NUL in c.value {
      var i :| 0 <= i < |c.value| && c.value[i] == NUL;
      assert line[|c.key| + 1 + i] == NUL;
    }
  }

  lemma BlockLines(lines: seq<string>)
    requires "" !in lines
    ensures Lines(Block(lines), 0) == lines <==> AllPlain(lines)
    ensures AllPlain(lines) ==> Terminated(Block(lines), 0)
  {
    var block := Block(lines);
    assert block[0..] == block;
    if AllPlain(lines) {
      if Storage(lines) == "" {
        assert lines == [] by {
          if lines != [] {
            StorageFromFront(lines);
          }
        }
      } else {
        LinesOfStorage(block, 0, lines);
      }
    }
    LinesArePlain(block, 0);
  }

  /** A block is its lines, each with a zero character, and another one; of none, it is two. */
  lemma BlocksAre(line: string)
    ensures Block([]) == "\0\0" && Block([line]) == line + "\0\0"
  {
    assert Storage([line]) == "" + line + "\0";
  }

  /** The changed block reads back as the changed lines exactly if there is no NUL in what is
      put in; and then it gives each variable the value it is to have exactly if no variable
      that gets a value has an equals sign in its name. */
  lemma BlockIsUpdate(env: string, changes: seq<Change>)
    requires Terminated(env, 0) && Distinct(changes)
    ensures var lines := Lines(env, 0);
            var block := Block(Altered(lines, changes));
            && (Lines(block, 0) == Altered(lines, changes) <==> NoNuls(changes))
            && (NoNuls(changes) ==>
                  && Terminated(block, 0)
                  && ((forall key :: Value(Lines(block, 0), key) == Wanted(lines, changes, key))
                      <==> NoEqualsSigns(changes)))
  {
    var lines := Lines(env, 0);
    LinesArePlain(env, 0);
    KeptArePlain(lines, changes);
    AddedArePlain(changes);
    AllPlainTogether(Kept(lines, changes), Added(changes));
    BlockLines(Altered(lines, changes));
    AlteredIsUpdate(lines, changes);
    hide Kept, Added, Block, Lines, AllPlain;
  }

  lemma AllPlainTogether(a: seq<string>, b: seq<string>)
    ensures AllPlain(a + b) <==> AllPlain(a) && AllPlain(b)
  {
    if AllPlain(a + b) {
      forall i | 0 <= i < |a| ensures Plain(a[i]) {
        assert (a + b)[i] == a[i];
      }
      forall i | 0 <= i < |b| ensures Plain(b[i]) {
        assert (a + b)[|a| + i] == b[i];
      }
    }
  }

  // ----- the array of pointers

  /** An address in the block of memory that AlterPointers allocates, from its start. */
  datatype Pointer = Null | At(address: nat)

  ghost function CStrings(env: seq<string>): seq<string> {
    seq(|env|, i requires 0 <= i < |env| => CString(env[i], 0))
  }

  ghost predicate AllTerminated(env: seq<string>) {
    forall i :: 0 <= i < |env| ==> NulAt(env[i], 0) < |env[i]|
  }

  // Where the line is in the storage of all.
  ghost function Offset(lines: seq<string>, i: nat): nat
    requires i <= |lines|
  {
    |Storage(lines[..i])|
  }

  ghost predicate AreOffsets(indices: seq<nat>, lines: seq<string>) {
    |indices| == |lines| && forall i :: 0 <= i < |indices| ==> indices[i] == Offset(lines, i)
  }

  lemma OneMoreOffset(indices: seq<nat>, lines: seq<string>, line: string)
    requires AreOffsets(indices, lines)
    ensures AreOffsets(indices + [|Storage(lines)|], lines + [line])
  {
    var more := lines + [line];
    assert more[..|lines|] == lines;
    forall i | 0 <= i < |lines|
      ensures Offset(more, i) == Offset(lines, i)
    {
      assert more[..i] == lines[..i];
    }
  }

  lemma {:induction false} LineInStorage(lines: seq<string>, i: nat)
    requires i < |lines|
    ensures var at := Offset(lines, i);
            && at + |lines[i]| + 1 <= |Storage(lines)|
            && Storage(lines)[at..at + |lines[i]| + 1] == lines[i] + [NUL]
  {
    var n := |lines| - 1;
    if i == n {
    } else {
      LineInStorage(lines[..n], i);
      assert lines[..n][..i] == lines[..i];
    }
  }

  method AlterPointers(env: seq<string>, changes: seq<Change>, wordSize: nat)
    returns (pointers: array<Pointer>, storage: array<char>, size: nat)
    requires AllTerminated(env) && wordSize > 0
    ensures fresh(pointers) && fresh(storage)
    ensures var lines := Altered(CStrings(env), changes);
            && pointers.Length == |lines| + 1
            && size == pointers.Length * wordSize + storage.Length && size % wordSize == 0
            && IsArrayOf(pointers[..], pointers.Length * wordSize, storage[..], lines)
  {
    var valueStorage, resultIndices := CollectLines(env, changes);
    ghost var lines := Altered(CStrings(env), changes);
    valueStorage, resultIndices := AppendLines(valueStorage, resultIndices, Kept(CStrings(env), changes), changes);
    hide *;
    var pointerCountRequired := |resultIndices| + 1 + Div(|valueStorage| + wordSize - 1, wordSize);
    size := pointerCountRequired * wordSize;
    var storageAt := (|resultIndices| + 1) * wordSize;
    RoundedUp(|resultIndices| + 1, |valueStorage|, wordSize);
    storage := new char[size - storageAt];
    CopyInto(storage, valueStorage);
    pointers := FillPointers(resultIndices, storageAt);
    AllInPlace(pointers[..], storageAt, storage[..], resultIndices, lines);
  }

  method FillPointers(resultIndices: seq<nat>, storageAt: nat) returns (pointers: array<Pointer>)
    ensures fresh(pointers) && pointers.Length == |resultIndices| + 1 && pointers[|resultIndices|] == Null
    ensures forall i :: 0 <= i < |resultIndices| ==> pointers[i] == At(storageAt + resultIndices[i])
  {
    pointers := new Pointer[|resultIndices| + 1];
    var i := 0;
    while i < |resultIndices|
      invariant i <= |resultIndices|
      invariant forall j :: 0 <= j < i ==> pointers[j] == At(storageAt + resultIndices[j])
    {
      pointers[i] := At(storageAt + resultIndices[i]);
      i := i + 1;
    }
    pointers[i] := Null;
  }

  lemma AllInPlace(pointers: seq<Pointer>, storageAt: nat, storage: string, resultIndices: seq<nat>, lines: seq<string>)
    requires Storage(lines) <= storage && AreOffsets(resultIndices, lines) && |pointers| == |lines| + 1
    requires forall i :: 0 <= i < |lines| ==> pointers[i] == At(storageAt + resultIndices[i])
    requires pointers[|lines|] == Null
    ensures |resultIndices| == |lines| && IsArrayOf(pointers, storageAt, storage, lines)
  {
    assert forall i :: 0 <= i < |lines| ==> pointers[i] == At(storageAt + Offset(lines, i));
    hide Storage, Offset, PointsTo, AreOffsets;
    forall i | 0 <= i < |lines|
      ensures PointsTo(pointers[i], storageAt, storage, lines[i])
    {
      InPlace(pointers[i], storageAt, storage, lines, i);
    }
  }

  lemma InPlace(p: Pointer, storageAt: nat, storage: string, lines: seq<string>, i: nat)
    requires Storage(lines) <= storage && i < |lines| && p == At(storageAt + Offset(lines, i))
    ensures PointsTo(p, storageAt, storage, lines[i])
  {
    hide Storage, Offset;
    LineInLonger(storage, lines, i);
  }

  /** The line and its NUL are there, all inside the memory that was allocated. */
  ghost predicate PointsTo(p: Pointer, storageAt: nat, storage: string, line: string) {
    && p.At? && storageAt <= p.address
    && var at := p.address - storageAt;
       at + |line| + 1 <= |storage| && storage[at..at + |line| + 1] == line + [NUL]
  }

  /** One pointer for each line, and a null behind them. */
  ghost predicate IsArrayOf(pointers: seq<Pointer>, storageAt: nat, storage: string, lines: seq<string>) {
    && |pointers| == |lines| + 1 && pointers[|lines|] == Null
    && forall i :: 0 <= i < |lines| ==> PointsTo(pointers[i], storageAt, storage, lines[i])
  }

  /** What is read from a pointer is the line exactly if there is no NUL in it. */
  lemma ReadFromPointer(p: Pointer, storageAt: nat, storage: string, line: string)
    requires PointsTo(p, storageAt, storage, line)
    ensures CString(storage, p.address - storageAt) == line <==> Plain(line)
  {
    var at := p.address - storageAt;
    var n := at + |line| + 1;
    if Plain(line) {
      assert storage[at..] == storage[at..n] + storage[n..] == line + ([NUL] + storage[n..]);
      EndOf(storage, at, line, storage[n..]);
    }
  }

  /** What whoever is given the array reads: the strings at the pointers up to the null. */
  ghost function ReadThrough(pointers: seq<Pointer>, storageAt: nat, storage: string): seq<string> {
    if pointers == [] || pointers[0].Null? then []
    else
      var at := pointers[0].address - storageAt;
      (if 0 <= at <= |storage| then [CString(storage, at)] else [])
      + ReadThrough(pointers[1..], storageAt, storage)
  }

  lemma {:induction false} ArrayReadsBack(pointers: seq<Pointer>, storageAt: nat, storage: string, lines: seq<string>)
    requires IsArrayOf(pointers, storageAt, storage, lines)
    ensures ReadThrough(pointers, storageAt, storage) == lines <==> AllPlain(lines)
  {
    if lines == [] {
    } else {
      ReadFromPointer(pointers[0], storageAt, storage, lines[0]);
      ArrayReadsBack(pointers[1..], storageAt, storage, lines[1..]);
      AllPlainTogether([lines[0]], lines[1..]);
      assert lines == [lines[0]] + lines[1..];
      hide CString, PointsTo;
    }
  }

  lemma CStringsArePlain(env: seq<string>)
    ensures AllPlain(CStrings(env))
  {
  }

  /** The array that AlterPointers makes reads back as the changed lines exactly if there is no
      NUL in what is put in; and then it gives each variable the value it is to have exactly
      if no variable that gets a value has an equals sign in its name. */
  lemma PointersAreUpdate(env: seq<string>, changes: seq<Change>, pointers: seq<Pointer>, storageAt: nat,
                          storage: string)
    requires Distinct(changes) && IsArrayOf(pointers, storageAt, storage, Altered(CStrings(env), changes))
    ensures var lines, back := CStrings(env), ReadThrough(pointers, storageAt, storage);
            && (back == Altered(lines, changes) <==> NoNuls(changes))
            && (NoNuls(changes) ==>
                  ((forall key :: Value(back, key) == Wanted(lines, changes, key)) <==> NoEqualsSigns(changes)))
  {
    var lines := CStrings(env);
    CStringsArePlain(env);
    KeptArePlain(lines, changes);
    AddedArePlain(changes);
    AllPlainTogether(Kept(lines, changes), Added(changes));
    ArrayReadsBack(pointers, storageAt, storage, Altered(lines, changes));
    AlteredIsUpdate(lines, changes);
    hide Kept, Added, AllPlain, ReadThrough;
  }

  lemma LineInLonger(storage: string, lines: seq<string>, i: nat)
    requires i < |lines| && Storage(lines) <= storage
    ensures var at := Offset(lines, i);
            at + |lines[i]| + 1 <= |storage| && storage[at..at + |lines[i]| + 1] == lines[i] + [NUL]
  {
    LineInStorage(lines, i);
  }

  lemma RoundedUp(words: nat, bytes: nat, wordSize: nat)
    requires wordSize > 0
    ensures var all := (words + Div(bytes + wordSize - 1, wordSize)) * wordSize;
            all >= words * wordSize + bytes && all % wordSize == 0
  {
    var q := Div(bytes + wordSize - 1, wordSize);
    TimesDistributes(wordSize, q, 1);
    TimesDistributes(wordSize, words, q);
    Quotient((words + q) * wordSize, wordSize, words + q, 0);
  }

  method CopyInto(a: array<char>, s: string)
    requires |s| <= a.Length
    modifies a
    ensures a[..|s|] == s
  {
    var i := 0;
    while i < |s|
      invariant i <= |s| && a[..i] == s[..i]
    {
      a[i] := s[i];
      i := i + 1;
    }
  }

  lemma LineAt(env: seq<string>, i: nat)
    requires i < |env| && AllTerminated(env)
    ensures var line, lines := CString(env[i], 0), CStrings(env);
            && NulAt(env[i], 0) < |env[i]| && |line| + 1 <= |env[i]| && line + [NUL] == env[i][0..|line| + 1]
            && |lines| == |env| && lines[..i + 1] == lines[..i] + [line]
  {
  }

  method CollectLines(env: seq<string>, changes: seq<Change>) returns (valueStorage: string, resultIndices: seq<nat>)
    requires AllTerminated(env)
    ensures valueStorage == Storage(Kept(CStrings(env), changes))
    ensures AreOffsets(resultIndices, Kept(CStrings(env), changes))
  {
    valueStorage, resultIndices := "", [];
    ghost var lines := CStrings(env);
    NothingYet(changes);
    assert lines[..0] == [] && AreOffsets([], Kept([], changes));
    var i := 0;
    while i < |env|
      invariant i <= |env|
      invariant valueStorage == Storage(Kept(lines[..i], changes))
      invariant AreOffsets(resultIndices, Kept(lines[..i], changes))
    {
      ghost var line, kept := CString(env[i], 0), Kept(lines[..i], changes);
      hide *;
      LineAt(env, i);
      KeptWithOneMore(lines[..i], line, changes);
      var key, lineLength := ParseEnvLine(env[i], 0);
      if !Changed(changes, key) {
        OneMoreOffset(resultIndices, kept, line);
        StorageOfMore(kept, line);
        resultIndices := resultIndices + [|valueStorage|];
        valueStorage := valueStorage + env[i][0..lineLength];
      }
      i := i + 1;
    }
    assert lines[..i] == lines;
  }

  method AppendLines(start: string, indices: seq<nat>, ghost kept: seq<string>, changes: seq<Change>)
    returns (valueStorage: string, resultIndices: seq<nat>)
    requires start == Storage(kept) && AreOffsets(indices, kept)
    ensures valueStorage == Storage(kept + Added(changes)) && AreOffsets(resultIndices, kept + Added(changes))
  {
    valueStorage, resultIndices := start, indices;
    ghost var sofar := kept;
    var i := 0;
    NothingAdded(kept, changes);
    hide *;
    while i < |changes|
      invariant i <= |changes| && sofar == kept + Added(changes[..i])
      invariant valueStorage == Storage(sofar) && AreOffsets(resultIndices, sofar)
    {
      var c := changes[i];
      AddedWithOneMore(kept, changes, i);
      if c.value != "" {
        OneMoreOffset(resultIndices, sofar, LineFor(c));
        StorageOfMore(sofar, LineFor(c));
        resultIndices := resultIndices + [|valueStorage|];
        valueStorage := PushLine(valueStorage, c);
        sofar := sofar + [LineFor(c)];
      }
      i := i + 1;
    }
    assert changes[..i] == changes;
  }
}
