/** When a command line printed by base/command_line.cc is taken apart into exactly the
    arguments it was printed from. */
module ArgvRoundTrip {
  import opened ArgvQuoting
  import opened Arithmetic
  import opened Options

  // How one argument is printed: some text as it is, and then perhaps a quoted value.
  datatype Piece = Piece(bare: string, value: Option<string>) {
    predicate WellFormed() {
      if value.None? then bare != "" else bare == "" || bare[|bare| - 1] == '='
    }

    function Printed(placeholders: bool): string {
      if value.None? then bare else bare + Quoted(value.value, placeholders)
    }

    function Text(): string {
      if value.None? then bare else bare + value.value
    }

    // Nothing in it separates arguments or starts a quoted part.
    predicate IsSafe(placeholders: bool) {
      && (forall k :: 0 <= k < |bare| ==> !IsBlank(bare[k]) && bare[k] != '"')
      && (value.Some? ==> NeedsQuotes(value.value, placeholders) || '\t' !in value.value)
      && Text() != ""
    }
  }

  function Joined(pieces: seq<Piece>, placeholders: bool): string {
    if pieces == [] then ""
    else if |pieces| == 1 then pieces[0].Printed(placeholders)
    else pieces[0].Printed(placeholders) + " " + Joined(pieces[1..], placeholders)
  }

  // ----- safe pieces come back

  // The characters of the token so far, pending backslashes included.
  function TokenText(p: Parser): string {
    p.token + Backslashes(p.slashes)
  }

  lemma {:induction false} RunBare(p: Parser, s: string, pairs: bool)
    requires !p.quoted && forall k :: 0 <= k < |s| ==> !IsBlank(s[k]) && s[k] != '"'
    ensures var q := Run(p, s, pairs);
      && !q.quoted && q.done == p.done && q.started == (p.started || s != "")
      && TokenText(q) == TokenText(p) + s
      && (s != "" && s[|s| - 1] != '\\' ==> q.slashes == 0 && !q.closed)
      && (s == "" ==> q == p)
    decreases |s|
  {
    if s == "" {
      assert TokenText(p) + s == TokenText(p);
    } else {
      var q := Step(p, s[0], pairs);
      if s[0] == '\\' {
        OneMoreBackslash(p.slashes);
      }
      assert TokenText(q) == TokenText(p) + [s[0]];
      RunBare(q, s[1..], pairs);
      assert TokenText(q) + s[1..] == TokenText(p) + s;
    }
  }

  // A quoted value behind settled text is added to the token.
  lemma RunQuoted(p: Parser, v: string, placeholders: bool, pairs: bool)
    requires !p.quoted && p.slashes == 0 && !p.closed && NeedsQuotes(v, placeholders)
    ensures Run(p, Quoted(v, placeholders), pairs) == Parser(false, true, 0, p.token + v, true, p.done)
  {
    var q := Step(p, '"', pairs);
    assert Quoted(v, placeholders) == "\"" + (Escaped(v) + "\"");
    RunAppend(p, "\"", Escaped(v) + "\"", pairs);
    RunOne(p, '"', pairs);
    RunEscaped(q, v, pairs);
    assert Resolved(q, v) == p.token;
  }

  lemma RunSafe(d: seq<string>, piece: Piece, placeholders: bool, pairs: bool)
    requires piece.WellFormed() && piece.IsSafe(placeholders)
    ensures var q := Run(Start(d), piece.Printed(placeholders), pairs);
      !q.quoted && q.started && q.done == d && TokenText(q) == piece.Text()
  {
    var p := Start(d);
    RunBare(p, piece.bare, pairs);
    var q := Run(p, piece.bare, pairs);
    assert TokenText(q) == piece.bare;
    if piece.value.Some? {
      var v := piece.value.value;
      assert q.slashes == 0 && !q.closed;
      hide Run, Quoted;
      RunAppend(p, piece.bare, Quoted(v, placeholders), pairs);
      RunValue(q, v, placeholders, pairs);
    }
  }

  lemma RunValue(q: Parser, v: string, placeholders: bool, pairs: bool)
    requires !q.quoted && q.slashes == 0 && !q.closed
    requires NeedsQuotes(v, placeholders) || '\t' !in v
    ensures var r := Run(q, Quoted(v, placeholders), pairs);
      && !r.quoted && r.done == q.done && TokenText(r) == TokenText(q) + v
      && r.started == (q.started || NeedsQuotes(v, placeholders) || v != "")
  {
    hide Run;
    if NeedsQuotes(v, placeholders) {
      RunQuoted(q, v, placeholders, pairs);
    } else {
      RunBare(q, v, pairs);
    }
  }

  /** Safe pieces, joined by spaces, are parsed into exactly their texts, in either dialect. */
  lemma {:induction false} SafePiecesComeBack(d: seq<string>, pieces: seq<Piece>, placeholders: bool, pairs: bool)
    requires forall k :: 0 <= k < |pieces| ==> pieces[k].WellFormed() && pieces[k].IsSafe(placeholders)
    ensures Finish(Run(Start(d), Joined(pieces, placeholders), pairs)) == d + Texts(pieces)
    decreases |pieces|
  {
    hide *;
    TextsUnfold(pieces);
    JoinedUnfolds(pieces, placeholders);
    if pieces == [] {
      NothingToRun(d, pairs);
      assert d + [] == d;
    } else {
      var text := pieces[0].Text();
      SafePieceEnds(d, pieces[0], placeholders, pairs);
      if |pieces| > 1 {
        var rest := Joined(pieces[1..], placeholders);
        BlankSeparates(Start(d), pieces[0].Printed(placeholders), rest, pairs);
        SafePiecesComeBack(d + [text], pieces[1..], placeholders, pairs);
        assert d + [text] + Texts(pieces[1..]) == d + ([text] + Texts(pieces[1..]));
      }
    }
  }

  lemma TextsUnfold(pieces: seq<Piece>)
    ensures Texts(pieces) == if pieces == [] then [] else [pieces[0].Text()] + Texts(pieces[1..])
    ensures |pieces| == 1 ==> Texts(pieces) == [pieces[0].Text()]
  {
  }

  lemma JoinedUnfolds(pieces: seq<Piece>, placeholders: bool)
    ensures pieces == [] ==> Joined(pieces, placeholders) == ""
    ensures |pieces| == 1 ==> Joined(pieces, placeholders) == pieces[0].Printed(placeholders)
    ensures |pieces| > 1 ==>
      Joined(pieces, placeholders) == pieces[0].Printed(placeholders) + " " + Joined(pieces[1..], placeholders)
  {
  }

  lemma NothingToRun(d: seq<string>, pairs: bool)
    ensures Finish(Run(Start(d), "", pairs)) == d
  {
  }

  lemma SafePieceEnds(d: seq<string>, piece: Piece, placeholders: bool, pairs: bool)
    requires piece.WellFormed() && piece.IsSafe(placeholders)
    ensures var q := Run(Start(d), piece.Printed(placeholders), pairs);
      Finish(q) == d + [piece.Text()] && Step(q, ' ', pairs) == Start(d + [piece.Text()])
  {
    RunSafe(d, piece, placeholders, pairs);
  }

  lemma BlankSeparates(p: Parser, s: string, rest: string, pairs: bool)
    ensures Run(p, s + " " + rest, pairs) == Run(Step(Run(p, s, pairs), ' ', pairs), rest, pairs)
  {
    RunAppend(p, s + " ", rest, pairs);
    RunAppend(p, s, " ", pairs);
    RunOne(Run(p, s, pairs), ' ', pairs);
  }

  function Texts(pieces: seq<Piece>): (t: seq<string>)
    ensures |t| == |pieces|
  {
    if pieces == [] then [] else [pieces[0].Text()] + Texts(pieces[1..])
  }

  // ----- and no others do

  function Blanks(s: string): (n: nat)
    ensures n <= |s|
  {
    if s == "" then 0 else (if IsBlank(s[0]) then 1 else 0) + Blanks(s[1..])
  }

  lemma {:induction false} BlanksAdd(a: string, b: string)
    ensures Blanks(a + b) == Blanks(a) + Blanks(b)
  {
    if a == "" {
      assert a + b == b;
    } else {
      assert (a + b)[1..] == a[1..] + b;
      BlanksAdd(a[1..], b);
    }
  }

  // How much a list of strings weighs: one for each string, one for each character, and
  // `extra` more for each blank.
  function Weight(s: string, extra: nat): nat {
    |s| + extra * Blanks(s)
  }

  function ListWeight(list: seq<string>, extra: nat): nat {
    if list == [] then 0 else 1 + Weight(list[0], extra) + ListWeight(list[1..], extra)
  }

  lemma {:induction false} ListWeightAdds(a: seq<string>, b: seq<string>, extra: nat)
    ensures ListWeight(a + b, extra) == ListWeight(a, extra) + ListWeight(b, extra)
  {
    if a == [] {
      assert a + b == b;
    } else {
      assert (a + b)[1..] == a[1..] + b;
      ListWeightAdds(a[1..], b, extra);
    }
  }

  // What the parser has collected so far weighs.
  function Collected(p: Parser, extra: nat): nat {
    ListWeight(p.done, extra) + Weight(p.token, extra) + p.slashes
  }

  // A token holds nothing before it is started.
  predicate Proper(p: Parser) {
    !p.started ==> p.token == "" && p.slashes == 0 && !p.quoted
  }

  lemma WeightAdds(a: string, b: string, extra: nat)
    ensures Weight(a + b, extra) == Weight(a, extra) + Weight(b, extra)
  {
    hide Blanks;
    BlanksAdd(a, b);
    TimesDistributes(extra, Blanks(a), Blanks(b));
  }

  lemma {:induction false} BackslashesWeigh(n: nat, extra: nat)
    ensures Weight(Backslashes(n), extra) == n
  {
    if n == 0 {
    } else {
      assert Backslashes(n)[1..] == Backslashes(n - 1);
      BackslashesWeigh(n - 1, extra);
    }
  }

  lemma OneStringWeighs(t: string, extra: nat)
    ensures ListWeight([t], extra) == 1 + Weight(t, extra)
  {
    assert [t][1..] == [];
  }

  /** One character adds at most its weight; a double quote, which the first dialect never
      doubles, adds nothing and costs the backslashes that it halves; a blank outside quotes
      adds at most one. */
  lemma StepWeighs(p: Parser, c: char, extra: nat)
    requires Proper(p)
    ensures var q := Step(p, c, false);
      && Proper(q)
      && (c == '"' ==> Collected(q, extra) + p.slashes == Collected(p, extra) + p.slashes / 2 + p.slashes % 2)
      && (c != '"' && !(IsBlank(c) && p.quoted) ==> Collected(q, extra) <= Collected(p, extra) + 1)
      && (c != '"' ==> Collected(q, extra) <= Collected(p, extra) + 1 + extra)
  {
    var q := Step(p, c, false);
    if c == '\\' {
    } else if c == '"' {
      BackslashesWeigh(p.slashes / 2, extra);
      WeightAdds(p.token, Backslashes(p.slashes / 2), extra);
      OneCharWeighs('"', extra);
      WeightAdds(p.token + Backslashes(p.slashes / 2), "\"", extra);
    } else {
      var token := p.token + Backslashes(p.slashes);
      BackslashesWeigh(p.slashes, extra);
      WeightAdds(p.token, Backslashes(p.slashes), extra);
      OneCharWeighs(c, extra);
      WeightAdds(token, [c], extra);
      ListWeightAdds(p.done, [token], extra);
      OneStringWeighs(token, extra);
      assert Weight("", extra) == 0;
    }
  }

  lemma OneCharWeighs(c: char, extra: nat)
    ensures Weight([c], extra) == if IsBlank(c) then 1 + extra else 1
  {
    assert [c][1..] == "";
    assert Blanks([c]) == if IsBlank(c) then 1 else 0;
  }

  lemma FinishWeighs(p: Parser, extra: nat)
    requires Proper(p)
    ensures ListWeight(Finish(p), extra) == Collected(p, extra) + if p.started then 1 else 0
  {
    var token := TokenText(p);
    BackslashesWeigh(p.slashes, extra);
    WeightAdds(p.token, Backslashes(p.slashes), extra);
    ListWeightAdds(p.done, [token], extra);
    OneStringWeighs(token, extra);
    assert Weight("", extra) == 0;
  }

  function Quotes(s: string): nat {
    if s == "" then 0 else (if s[0] == '"' then 1 else 0) + Quotes(s[1..])
  }

  // Any text, in any mode: each double quote is one character less in the tokens.
  lemma {:induction false} RunWeighs(p: Parser, s: string)
    requires Proper(p)
    ensures var q := Run(p, s, false); Proper(q) && Collected(q, 0) + Quotes(s) <= Collected(p, 0) + |s|
    decreases |s|
  {
    hide Step, Collected;
    if s == "" {
    } else {
      StepWeighs(p, s[0], 0);
      RunWeighs(Step(p, s[0], false), s[1..]);
    }
  }

  // Text without double quotes, outside quotes: a blank is worth no more than any character.
  lemma {:induction false} RunUnquotedWeighs(p: Parser, s: string, extra: nat)
    requires Proper(p) && !p.quoted && Quotes(s) == 0
    ensures var q := Run(p, s, false); Proper(q) && !q.quoted && Collected(q, extra) <= Collected(p, extra) + |s|
    decreases |s|
  {
    if s == "" {
    } else {
      var q := Step(p, s[0], false);
      assert !q.quoted;
      hide Step, Collected;
      StepWeighs(p, s[0], extra);
      RunUnquotedWeighs(q, s[1..], extra);
    }
  }

  // The escapes that quoting adds are the characters that parsing takes away, in any mode.
  lemma {:induction false} RunEscapedWeighs(p: Parser, s: string)
    requires Proper(p) && (RunsIntoQuote(s) ==> p.slashes % 2 == 0)
    ensures var q := Run(p, Escaped(s) + "\"", false);
      && Proper(q)
      && Collected(q, 0) + (if RunsIntoQuote(s) then p.slashes / 2 else 0) <= Collected(p, 0) + |s|
    decreases |s|
  {
    if s == "" {
      assert Escaped(s) + "\"" == "\"";
      RunOne(p, '"', false);
      StepWeighs(p, '"', 0);
    } else {
      assert Escaped(s) + "\"" == EscapeOf(s) + (Escaped(s[1..]) + "\"");
      RunAppend(p, EscapeOf(s), Escaped(s[1..]) + "\"", false);
      var q := Run(p, EscapeOf(s), false);
      EscapeWeighs(p, s);
      RunEscapedWeighs(q, s[1..]);
    }
  }

  lemma EscapeWeighs(p: Parser, s: string)
    requires s != "" && Proper(p) && (RunsIntoQuote(s) ==> p.slashes % 2 == 0)
    ensures var q := Run(p, EscapeOf(s), false);
      && Proper(q) && (RunsIntoQuote(s[1..]) ==> q.slashes % 2 == 0)
      && Collected(q, 0) + (if RunsIntoQuote(s) then p.slashes / 2 else 0)
      <= Collected(p, 0) + 1 + (if RunsIntoQuote(s[1..]) then q.slashes / 2 else 0)
  {
    var c := s[0];
    if c == '"' {
      RunTwo(p, '\\', '"', false);
      var q := Step(p, '\\', false);
      assert q.slashes == p.slashes + 1 && Step(q, '"', false).slashes == 0;
      StepWeighs(p, '\\', 0);
      StepWeighs(q, '"', 0);
    } else if c != '\\' {
      RunOne(p, c, false);
      assert Step(p, c, false).slashes == 0;
      StepWeighs(p, c, 0);
    } else if RunsIntoQuote(s) {
      RunTwo(p, '\\', '\\', false);
      StepWeighs(p, '\\', 0);
      StepWeighs(Step(p, '\\', false), '\\', 0);
    } else {
      RunOne(p, c, false);
      StepWeighs(p, c, 0);
    }
  }

  // Nothing is pending behind text that ends in '='.
  lemma {:induction false} SettledBehind(p: Parser, s: string)
    requires s != "" && s[|s| - 1] == '='
    ensures var q := Run(p, s, false); q.slashes == 0 && !q.closed
    decreases |s|
  {
    if |s| == 1 {
      assert s == [s[0]];
      RunOne(p, s[0], false);
    } else {
      SettledBehind(Step(p, s[0], false), s[1..]);
    }
  }

  lemma {:induction false} PlainHasNoQuotes(v: string, placeholders: bool)
    requires !NeedsQuotes(v, placeholders)
    ensures Quotes(v) == 0
  {
    if v == "" {
    } else {
      assert !IsQuotable(v[0], placeholders);
      forall k | 0 <= k < |v[1..]|
        ensures !IsQuotable(v[1..][k], placeholders)
      {
        assert v[1..][k] == v[k + 1];
      }
      PlainHasNoQuotes(v[1..], placeholders);
    }
  }

  lemma ValueWeighs(p: Parser, v: string, placeholders: bool)
    requires Proper(p) && p.slashes == 0
    ensures var q := Run(p, Quoted(v, placeholders), false); Proper(q) && Collected(q, 0) <= Collected(p, 0) + |v|
  {
    if NeedsQuotes(v, placeholders) {
      assert Quoted(v, placeholders) == "\"" + (Escaped(v) + "\"");
      RunAppend(p, "\"", Escaped(v) + "\"", false);
      RunOne(p, '"', false);
      StepWeighs(p, '"', 0);
      var q := Step(p, '"', false);
      assert q.slashes == 0;
      RunEscapedWeighs(q, v);
    } else {
      RunWeighs(p, v);
    }
  }

  lemma PieceWeighs(p: Parser, piece: Piece, placeholders: bool)
    requires Proper(p) && p.slashes == 0 && piece.WellFormed()
    ensures var q := Run(p, piece.Printed(placeholders), false);
      Proper(q) && Collected(q, 0) + Quotes(piece.bare) <= Collected(p, 0) + |piece.Text()|
  {
    hide Collected, Proper, Quoted;
    RunWeighs(p, piece.bare);
    if piece.value.Some? {
      var q := Run(p, piece.bare, false);
      RunAppend(p, piece.bare, Quoted(piece.value.value, placeholders), false);
      if piece.bare != "" {
        SettledBehind(p, piece.bare);
      }
      ValueWeighs(q, piece.value.value, placeholders);
    }
  }

  function AllQuotes(pieces: seq<Piece>): nat {
    if pieces == [] then 0 else Quotes(pieces[0].bare) + AllQuotes(pieces[1..])
  }

  lemma {:induction false} JoinedWeighs(p: Parser, pieces: seq<Piece>, placeholders: bool)
    requires Proper(p) && p.slashes == 0
    requires forall k :: 0 <= k < |pieces| ==> pieces[k].WellFormed()
    ensures var q := Run(p, Joined(pieces, placeholders), false);
      && Proper(q)
      && Collected(q, 0) + AllQuotes(pieces) + (if pieces == [] then 0 else 1)
      <= Collected(p, 0) + ListWeight(Texts(pieces), 0)
    decreases |pieces|
  {
    hide Collected, Proper;
    if pieces == [] {
    } else {
      PieceWeighs(p, pieces[0], placeholders);
      var q := Run(p, pieces[0].Printed(placeholders), false);
      assert Texts(pieces)[1..] == Texts(pieces[1..]);
      if |pieces| == 1 {
        assert pieces[1..] == [];
      } else {
        var rest := Joined(pieces[1..], placeholders);
        BlankSeparates(p, pieces[0].Printed(placeholders), rest, false);
        StepWeighs(q, ' ', 0);
        var r := Step(q, ' ', false);
        assert r.slashes == 0;
        JoinedWeighs(r, pieces[1..], placeholders);
      }
    }
  }

  // ----- the exact condition

  // A piece and the argument it stands for; printing drops the '=' of an empty value.
  predicate StandsFor(piece: Piece, arg: string) {
    piece.WellFormed() && (arg == piece.Text() || arg == piece.Text() + "=")
  }

  predicate ComesBack(piece: Piece, arg: string, placeholders: bool) {
    piece.IsSafe(placeholders) && arg == piece.Text()
  }

  lemma {:induction false} NoQuotes(s: string)
    ensures Quotes(s) == 0 <==> '"' !in s
  {
    if s == "" {
    } else {
      NoQuotes(s[1..]);
      assert s == [s[0]] + s[1..];
    }
  }

  lemma {:induction false} NoBlanks(s: string)
    ensures Blanks(s) == 0 <==> forall k :: 0 <= k < |s| ==> !IsBlank(s[k])
  {
    if s == "" {
    } else {
      NoBlanks(s[1..]);
      forall k | 0 < k < |s|
        ensures s[k] == s[1..][k - 1]
      {
      }
    }
  }

  // A value printed as it is contains no space, so a blank in it is a tab.
  lemma PlainBlanks(v: string, placeholders: bool)
    requires !NeedsQuotes(v, placeholders)
    ensures Blanks(v) == 0 <==> '\t' !in v
  {
    NoBlanks(v);
    forall k | 0 <= k < |v|
      ensures IsBlank(v[k]) <==> v[k] == '\t'
    {
      assert !IsQuotable(v[k], placeholders);
    }
  }

  // The blanks of a piece that get into the tokens: those of a quoted value.
  function KeptBlanks(piece: Piece, placeholders: bool): nat {
    if piece.value.Some? && NeedsQuotes(piece.value.value, placeholders) then Blanks(piece.value.value) else 0
  }

  lemma PieceWeighsMore(d: seq<string>, piece: Piece, placeholders: bool)
    requires piece.WellFormed() && Quotes(piece.bare) == 0
    ensures var q := Run(Start(d), piece.Printed(placeholders), false);
      && Proper(q) && !q.quoted && (q.started ==> piece.Text() != "")
      && Collected(q, 2) <= ListWeight(d, 2) + |piece.Text()| + 2 * KeptBlanks(piece, placeholders)
  {
    var p := Start(d);
    var q := Run(p, piece.bare, false);
    assert Weight("", 2) == 0;
    RunUnquotedWeighs(p, piece.bare, 2);
    if piece.value.Some? {
      var v := piece.value.value;
      RunAppend(p, piece.bare, Quoted(v, placeholders), false);
      if piece.bare != "" {
        SettledBehind(p, piece.bare);
      }
      if NeedsQuotes(v, placeholders) {
        RunQuoted(q, v, placeholders, false);
        WeightAdds(q.token, v, 2);
      } else {
        PlainHasNoQuotes(v, placeholders);
        RunUnquotedWeighs(q, v, 2);
      }
    }
  }

  // An argument weighs at least what its piece puts into the tokens, and more if it is
  // not one that comes back.
  lemma ArgumentWeighs(piece: Piece, arg: string, placeholders: bool)
    requires StandsFor(piece, arg) && Quotes(piece.bare) == 0
    ensures var least := |piece.Text()| + 2 * KeptBlanks(piece, placeholders) + (if piece.Text() == "" then 0 else 1);
      least <= 1 + Weight(arg, 2) && (!ComesBack(piece, arg, placeholders) ==> least < 1 + Weight(arg, 2))
  {
    hide Blanks;
    WeightAdds(piece.Text(), "=", 2);
    OneCharWeighs('=', 2);
    NoBlanks(piece.bare);
    NoQuotes(piece.bare);
    if piece.value.Some? {
      var v := piece.value.value;
      BlanksAdd(piece.bare, v);
      if !NeedsQuotes(v, placeholders) {
        PlainBlanks(v, placeholders);
      }
    }
  }

  predicate Matching(pieces: seq<Piece>, args: seq<string>) {
    |pieces| == |args| && forall k :: 0 <= k < |args| ==> StandsFor(pieces[k], args[k])
  }

  predicate AllComeBack(pieces: seq<Piece>, args: seq<string>, placeholders: bool)
    requires |pieces| == |args|
  {
    forall k :: 0 <= k < |args| ==> ComesBack(pieces[k], args[k], placeholders)
  }

  lemma {:induction false} TextsWeighLess(pieces: seq<Piece>, args: seq<string>)
    requires Matching(pieces, args)
    ensures ListWeight(Texts(pieces), 0) <= ListWeight(args, 0)
  {
    if pieces == [] {
    } else {
      assert Texts(pieces)[1..] == Texts(pieces[1..]);
      TextsWeighLess(pieces[1..], args[1..]);
    }
  }

  lemma PieceThenBlank(d: seq<string>, piece: Piece, arg: string, placeholders: bool)
    requires StandsFor(piece, arg) && Quotes(piece.bare) == 0
    ensures var q := Run(Start(d), piece.Printed(placeholders), false);
      && ListWeight(Finish(q), 2) <= ListWeight(d, 2) + 1 + Weight(arg, 2)
      && (!ComesBack(piece, arg, placeholders) ==> ListWeight(Finish(q), 2) < ListWeight(d, 2) + 1 + Weight(arg, 2))
      && Step(q, ' ', false) == Start(Finish(q))
  {
    PieceWeighsMore(d, piece, placeholders);
    ArgumentWeighs(piece, arg, placeholders);
    FinishWeighs(Run(Start(d), piece.Printed(placeholders), false), 2);
  }

  lemma {:induction false} JoinedWeighsMore(d: seq<string>, pieces: seq<Piece>, args: seq<string>, placeholders: bool)
    requires Matching(pieces, args) && AllQuotes(pieces) == 0
    ensures var w := ListWeight(Finish(Run(Start(d), Joined(pieces, placeholders), false)), 2);
      && w <= ListWeight(d, 2) + ListWeight(args, 2)
      && (!AllComeBack(pieces, args, placeholders) ==> w < ListWeight(d, 2) + ListWeight(args, 2))
    decreases |pieces|
  {
    hide Run, Step, Finish, ComesBack, StandsFor, Weight, Quotes;
    JoinedUnfolds(pieces, placeholders);
    if pieces == [] {
      NothingToRun(d, false);
    } else {
      PieceThenBlank(d, pieces[0], args[0], placeholders);
      if |pieces| == 1 {
        assert args[1..] == [];
      } else {
        var q := Run(Start(d), pieces[0].Printed(placeholders), false);
        BlankSeparates(Start(d), pieces[0].Printed(placeholders), Joined(pieces[1..], placeholders), false);
        JoinedWeighsMore(Finish(q), pieces[1..], args[1..], placeholders);
        AllComeBackSplits(pieces, args, placeholders);
      }
    }
  }

  lemma AllComeBackSplits(pieces: seq<Piece>, args: seq<string>, placeholders: bool)
    requires 0 < |pieces| == |args|
    ensures AllComeBack(pieces, args, placeholders)
       <==> ComesBack(pieces[0], args[0], placeholders) && AllComeBack(pieces[1..], args[1..], placeholders)
  {
    hide ComesBack;
    if ComesBack(pieces[0], args[0], placeholders) && AllComeBack(pieces[1..], args[1..], placeholders) {
      forall k | 0 <= k < |args|
        ensures ComesBack(pieces[k], args[k], placeholders)
      {
        if k > 0 {
          assert ComesBack(pieces[1..][k - 1], args[1..][k - 1], placeholders);
        }
      }
    } else if AllComeBack(pieces, args, placeholders) {
      forall k | 0 <= k < |args[1..]|
        ensures ComesBack(pieces[1..][k], args[1..][k], placeholders)
      {
        assert ComesBack(pieces[k + 1], args[k + 1], placeholders);
      }
    }
  }

  lemma {:induction false} SomeQuote(pieces: seq<Piece>, args: seq<string>, placeholders: bool)
    requires |pieces| == |args| && AllQuotes(pieces) > 0
    ensures !AllComeBack(pieces, args, placeholders)
  {
    if Quotes(pieces[0].bare) > 0 {
      NoQuotes(pieces[0].bare);
      assert !ComesBack(pieces[0], args[0], placeholders);
    } else {
      SomeQuote(pieces[1..], args[1..], placeholders);
      AllComeBackSplits(pieces, args, placeholders);
    }
  }

  lemma {:induction false} TextsOfSafe(pieces: seq<Piece>, args: seq<string>, placeholders: bool)
    requires Matching(pieces, args) && AllComeBack(pieces, args, placeholders)
    ensures Texts(pieces) == args
  {
    hide StandsFor, IsBlank, NeedsQuotes;
    if pieces == [] {
    } else {
      AllComeBackSplits(pieces, args, placeholders);
      TextsOfSafe(pieces[1..], args[1..], placeholders);
      assert args == [args[0]] + args[1..];
    }
  }

  /** The printed line is parsed into exactly the arguments it was printed from if and only
      if every argument is not empty, has no blank or double quote in an unquoted part, no
      tab in a value that is not quoted, and is not a switch with '=' and an empty value. */
  lemma ComesBackExactly(pieces: seq<Piece>, args: seq<string>, placeholders: bool)
    requires Matching(pieces, args)
    ensures Parse(Joined(pieces, placeholders), false) == args <==> AllComeBack(pieces, args, placeholders)
  {
    hide Run, Collected, StandsFor;
    var q := Run(Start([]), Joined(pieces, placeholders), false);
    if AllComeBack(pieces, args, placeholders) {
      AllComeBackInAnyDialect(pieces, args, placeholders, false);
    } else if AllQuotes(pieces) > 0 {
      assert forall k :: 0 <= k < |pieces| ==> pieces[k].WellFormed() by { WellFormedPieces(pieces, args); }
      JoinedWeighs(Start([]), pieces, placeholders);
      FinishWeighs(q, 0);
      StartWeighs(0);
      TextsWeighLess(pieces, args);
    } else {
      JoinedWeighsMore([], pieces, args, placeholders);
    }
  }

  lemma WellFormedPieces(pieces: seq<Piece>, args: seq<string>)
    requires Matching(pieces, args)
    ensures forall k :: 0 <= k < |pieces| ==> pieces[k].WellFormed()
  {
    forall k | 0 <= k < |pieces|
      ensures pieces[k].WellFormed()
    {
      assert StandsFor(pieces[k], args[k]);
    }
  }

  lemma StartWeighs(extra: nat)
    ensures Collected(Start([]), extra) == 0
  {
    assert Weight("", extra) == 0;
  }

  lemma AllComeBackInAnyDialect(pieces: seq<Piece>, args: seq<string>, placeholders: bool, pairs: bool)
    requires Matching(pieces, args) && AllComeBack(pieces, args, placeholders)
    ensures Parse(Joined(pieces, placeholders), pairs) == args
  {
    WellFormedPieces(pieces, args);
    forall k | 0 <= k < |pieces|
      ensures pieces[k].IsSafe(placeholders)
    {
      assert ComesBack(pieces[k], args[k], placeholders);
    }
    SafePiecesComeBack([], pieces, placeholders, pairs);
    TextsOfSafe(pieces, args, placeholders);
    assert [] + args == args;
  }

  /** Two arguments that are printed without quotes and do not come back. */
  lemma SomeArgumentsAreLost()
    ensures Parse(Quoted("", false), false) != [""]
    ensures Parse(Quoted("a\tb", false), false) != ["a\tb"]
  {
    var empty, tab := Piece("", Some("")), Piece("", Some("a\tb"));
    assert Joined([empty], false) == "" + Quoted("", false) == Quoted("", false);
    assert Joined([tab], false) == "" + Quoted("a\tb", false) == Quoted("a\tb", false);
    ComesBackExactly([empty], [""], false);
    ComesBackExactly([tab], ["a\tb"], false);
    assert !ComesBack(empty, "", false);
    assert "a\tb"[1] == '\t';
    assert !ComesBack(tab, "a\tb", false);
  }
}
