/** base/strings: white space, trimming, and splitting at a character. */
module Strings {
  import opened Positions

  // ----- white space

  // kWhitespaceASCII on POSIX, kWhitespaceUTF16 on Windows.
  predicate IsWhitespace(windows: bool, c: char) {
    var n := c as int;
    || 0x09 <= n <= 0x0d || n == 0x20
    || (windows && (n == 0x85 || n == 0xa0 || n == 0x1680 || 0x2000 <= n <= 0x200a
                    || n == 0x2028 || n == 0x2029 || n == 0x202f || n == 0x205f || n == 0x3000))
  }

  /** In ASCII these are the five characters from tab to carriage return and the space. */
  lemma WhitespaceIs(windows: bool, c: char)
    requires c < 128 as char
    ensures IsWhitespace(windows, c) <==> c in {' ', '\t', '\n', '\r', 11 as char, 12 as char}
  {
  }

  predicate IsTrimmed(windows: bool, s: string) {
    s != "" ==> !IsWhitespace(windows, s[0]) && !IsWhitespace(windows, s[|s| - 1])
  }

  // TrimWhitespace with TRIM_ALL.
  function Trim(windows: bool, s: string): (t: string)
    ensures IsTrimmed(windows, t)
    ensures IsTrimmed(windows, s) ==> t == s
    decreases |s|
  {
    if s == "" then ""
    else if IsWhitespace(windows, s[0]) then Trim(windows, s[1..])
    else if IsWhitespace(windows, s[|s| - 1]) then Trim(windows, s[..|s| - 1])
    else s
  }

  lemma TrimNothing(windows: bool)
    ensures Trim(windows, "") == ""
  {
  }

  // ----- the first occurrence of a character

  // find(c), or the length for npos.
  function FindFirst(s: string, c: char): (n: nat)
    ensures n <= |s| && c !in s[..n] && (n < |s| ==> s[n] == c)
  {
    if s == "" || s[0] == c then 0
    else
      assert s[..1 + FindFirst(s[1..], c)] == [s[0]] + s[1..][..FindFirst(s[1..], c)];
      1 + FindFirst(s[1..], c)
  }

  lemma {:induction false} FirstIsBehind(head: string, c: char, rest: string)
    requires c !in head && (rest == "" || rest[0] == c)
    ensures FindFirst(head + rest, c) == |head|
  {
    if head == "" {
      assert head + rest == rest;
    } else {
      assert (head + rest)[1..] == head[1..] + rest;
      assert head[0] in head;
      FirstIsBehind(head[1..], c, rest);
    }
  }

  // ----- splitting

  function Pieces(s: string, delimiter: char): (pieces: seq<string>)
    ensures pieces != []
    decreases |s|, 1
  {
    var n := FindFirst(s, delimiter);
    [s[..n]] + PiecesBehind(s, n, delimiter)
  }

  function PiecesBehind(s: string, n: nat, delimiter: char): seq<string>
    requires n <= |s|
    decreases |s|, 0
  {
    if n == |s| then [] else Pieces(s[n + 1..], delimiter)
  }

  function JoinedBy(pieces: seq<string>, delimiter: char): string
    requires pieces != []
  {
    if |pieces| == 1 then pieces[0] else pieces[0] + [delimiter] + JoinedBy(pieces[1..], delimiter)
  }

  /** The pieces are the only strings without the delimiter that, joined by it, make up s. */
  lemma {:induction false} PiecesAreUnique(s: string, delimiter: char, pieces: seq<string>)
    requires pieces != []
    ensures pieces == Pieces(s, delimiter) <==>
      JoinedBy(pieces, delimiter) == s && forall k :: 0 <= k < |pieces| ==> delimiter !in pieces[k]
  {
    PiecesJoin(s, delimiter);
    if JoinedBy(pieces, delimiter) == s && forall k :: 0 <= k < |pieces| ==> delimiter !in pieces[k] {
      JoinedSplits(pieces, delimiter);
    }
  }

  lemma {:induction false} PiecesJoin(s: string, delimiter: char)
    ensures var pieces := Pieces(s, delimiter);
      JoinedBy(pieces, delimiter) == s && forall k :: 0 <= k < |pieces| ==> delimiter !in pieces[k]
    decreases |s|
  {
    var n := FindFirst(s, delimiter);
    if n < |s| {
      PiecesJoin(s[n + 1..], delimiter);
      assert s == s[..n] + [delimiter] + s[n + 1..];
      assert Pieces(s, delimiter)[1..] == Pieces(s[n + 1..], delimiter);
    } else {
      assert s[..n] == s;
    }
  }

  lemma {:induction false} JoinedSplits(pieces: seq<string>, delimiter: char)
    requires pieces != [] && forall k :: 0 <= k < |pieces| ==> delimiter !in pieces[k]
    ensures Pieces(JoinedBy(pieces, delimiter), delimiter) == pieces
  {
    if |pieces| == 1 {
      FirstIsBehind(pieces[0], delimiter, "");
      assert pieces[0] + "" == pieces[0];
    } else {
      JoinedSplits(pieces[1..], delimiter);
      FirstPiece(pieces[0], delimiter, JoinedBy(pieces[1..], delimiter));
      hide Pieces;
      assert pieces == [pieces[0]] + pieces[1..];
    }
  }

  lemma FirstPiece(head: string, delimiter: char, rest: string)
    requires delimiter !in head
    ensures Pieces(head + [delimiter] + rest, delimiter) == [head] + Pieces(rest, delimiter)
  {
    var s := head + [delimiter] + rest;
    FirstIsBehind(head, delimiter, [delimiter] + rest);
    assert s == head + ([delimiter] + rest);
    assert s[..|head|] == head && s[|head| + 1..] == rest;
  }

  function TrimAll(windows: bool, pieces: seq<string>): (trimmed: seq<string>)
    ensures |trimmed| == |pieces|
  {
    seq(|pieces|, k requires 0 <= k < |pieces| => Trim(windows, pieces[k]))
  }

  // What SplitString yields; nothing for the empty string.
  function TrimmedPieces(windows: bool, s: string, delimiter: char): seq<string> {
    if s == "" then [] else TrimAll(windows, Pieces(s, delimiter))
  }

  // What is still to come when the next piece begins at `start`; nothing after npos.
  function StillToSplit(windows: bool, str: string, delimiter: char, start: nat, more: bool): seq<string>
    requires start <= |str|
  {
    if more then TrimAll(windows, Pieces(str[start..], delimiter)) else []
  }

  lemma SplitAll(windows: bool, str: string, delimiter: char)
    ensures StillToSplit(windows, str, delimiter, 0, true) == TrimAll(windows, Pieces(str, delimiter))
    ensures forall start | 0 <= start <= |str| :: StillToSplit(windows, str, delimiter, start, false) == []
  {
    assert str[0..] == str;
  }

  lemma SplitNext(windows: bool, str: string, delimiter: char, start: nat, done: seq<string>)
    requires start <= |str|
    ensures var rest := str[start..];
      var end := FindFirst(rest, delimiter);
      var more := end < |rest|;
      done + StillToSplit(windows, str, delimiter, start, true)
      == done + [Trim(windows, rest[..end])]
         + StillToSplit(windows, str, delimiter, if more then start + end + 1 else start, more)
  {
    var rest := str[start..];
    var end := FindFirst(rest, delimiter);
    var later := PiecesBehind(rest, end, delimiter);
    assert Pieces(rest, delimiter) == [rest[..end]] + later;
    assert end < |rest| ==> str[start + end + 1..] == rest[end + 1..];
    hide Trim, FindFirst, Pieces;
    TrimFirst(windows, rest[..end], later);
    Regroup(done, [Trim(windows, rest[..end])], TrimAll(windows, later));
    hide TrimAll;
  }

  lemma TrimFirst(windows: bool, piece: string, later: seq<string>)
    ensures TrimAll(windows, [piece] + later) == [Trim(windows, piece)] + TrimAll(windows, later)
    ensures TrimAll(windows, []) == [] && [piece] + [] == [piece]
  {
    hide Trim;
  }

  // SplitString with TRIM_WHITESPACE and SPLIT_WANT_ALL; `more` is false at npos.
  method SplitString(windows: bool, str: string, delimiter: char) returns (result: seq<string>)
    ensures result == TrimmedPieces(windows, str, delimiter)
  {
    SplitAll(windows, str, delimiter);
    hide Trim, TrimAll, Pieces, StillToSplit;
    result := [];
    if str == "" {
      return;
    }
    ghost var all := TrimAll(windows, Pieces(str, delimiter));
    var start, more := 0, true;
    while more
      invariant 0 <= start <= |str|
      invariant all == result + StillToSplit(windows, str, delimiter, start, more)
      decreases more, |str| - start
    {
      SplitNext(windows, str, delimiter, start, result);
      var rest := str[start..];
      var end := FindFirst(rest, delimiter);
      result := result + [Trim(windows, rest[..end])];
      if end == |rest| {
        more := false;
      } else {
        start := start + end + 1;
      }
    }
  }
}
