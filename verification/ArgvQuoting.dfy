/** The quoting of base/command_line.cc for CommandLineToArgvW, and the documented rules by
    which CommandLineToArgvW takes a command line apart again. */
module ArgvQuoting {

  // ----- quoting

  predicate IsQuotable(c: char, placeholders: bool) {
    c == ' ' || c == '\\' || c == '"' || (placeholders && c == '%')
  }

  predicate NeedsQuotes(arg: string, placeholders: bool) {
    exists k :: 0 <= k < |arg| && IsQuotable(arg[k], placeholders)
  }

  function Backslashes(n: nat): (s: string)
    ensures |s| == n
  {
    if n == 0 then "" else "\\" + Backslashes(n - 1)
  }

  // Only backslashes up to a double quote or the end of the string.
  predicate RunsIntoQuote(s: string) {
    s == "" || s[0] == '"' || (s[0] == '\\' && RunsIntoQuote(s[1..]))
  }

  /** Each double quote gets a backslash, and a backslash is doubled when nothing but
      backslashes stands between it and a double quote or the end. */
  function Escaped(s: string): string {
    if s == "" then ""
    else if s[0] == '"' then "\\\"" + Escaped(s[1..])
    else if s[0] == '\\' then (if RunsIntoQuote(s) then "\\\\" else "\\") + Escaped(s[1..])
    else [s[0]] + Escaped(s[1..])
  }

  function Quoted(arg: string, placeholders: bool): string {
    if NeedsQuotes(arg, placeholders) then "\"" + Escaped(arg) + "\"" else arg
  }

  lemma {:induction false} EscapedIsNotShorter(s: string)
    ensures |Escaped(s)| >= |s|
  {
    if s == "" {
    } else {
      EscapedIsNotShorter(s[1..]);
    }
  }

  /** Exactly the strings without a space, a backslash or a double quote, nor a percent sign
      where placeholders are to be quoted, are printed as they are. */
  lemma PrintedAsIs(arg: string, placeholders: bool)
    ensures Quoted(arg, placeholders) == arg <==>
      ' ' !in arg && '\\' !in arg && '"' !in arg && (placeholders ==> '%' !in arg)
  {
    EscapedIsNotShorter(arg);
    if NeedsQuotes(arg, placeholders) {
      var k :| 0 <= k < |arg| && IsQuotable(arg[k], placeholders);
      assert arg[k] in arg;
    }
  }

  lemma {:induction false} BackslashesAdd(m: nat, n: nat)
    ensures Backslashes(m) + Backslashes(n) == Backslashes(m + n)
  {
    if m > 0 {
      BackslashesAdd(m - 1, n);
      assert Backslashes(m) + Backslashes(n) == "\\" + (Backslashes(m - 1) + Backslashes(n));
    } else {
      assert "" + Backslashes(n) == Backslashes(n);
    }
  }

  lemma OneMoreBackslash(n: nat)
    ensures Backslashes(n) + "\\" == Backslashes(n + 1)
  {
    assert Backslashes(1) == "\\" + Backslashes(0);
    BackslashesAdd(n, 1);
  }

  // A run of n backslashes is escaped as a whole.
  lemma {:induction false} EscapedRun(n: nat, rest: string)
    ensures RunsIntoQuote(Backslashes(n) + rest) == RunsIntoQuote(rest)
    ensures Escaped(Backslashes(n) + rest) == Backslashes(if RunsIntoQuote(rest) then 2 * n else n) + Escaped(rest)
  {
    var s := Backslashes(n) + rest;
    if n > 0 {
      EscapedRun(n - 1, rest);
      assert s[1..] == Backslashes(n - 1) + rest;
      if RunsIntoQuote(rest) {
        BackslashesAdd(2, 2 * n - 2);
        assert Backslashes(2) == "\\" + Backslashes(1);
        assert Backslashes(1) == "\\" + Backslashes(0);
      }
    } else {
      assert s == rest;
    }
  }

  // The three kinds of step that the loop of QuoteForCommandLineToArgvW takes at i.
  lemma EscapedFrom(arg: string, i: nat, end: nat)
    requires i < end <= |arg| && arg[i..end] == Backslashes(end - i)
    requires end < |arg| ==> arg[end] != '\\'
    ensures Escaped(arg[i..])
         == Backslashes(if end == |arg| || arg[end] == '"' then 2 * (end - i) else end - i) + Escaped(arg[end..])
  {
    EscapedRun(end - i, arg[end..]);
    assert arg[i..] == arg[i..end] + arg[end..];
  }

  lemma EscapedAt(arg: string, i: nat)
    requires i < |arg| && arg[i] != '\\'
    ensures Escaped(arg[i..]) == (if arg[i] == '"' then "\\\"" else [arg[i]]) + Escaped(arg[i + 1..])
  {
    assert arg[i..][1..] == arg[i + 1..];
  }

  /** QuoteForCommandLineToArgvW, with its loop over runs of backslashes. */
  method QuoteForCommandLineToArgvW(arg: string, quotePlaceholders: bool) returns (out: string)
    ensures out == Quoted(arg, quotePlaceholders)
  {
    hide Escaped, Backslashes;
    if !NeedsQuotes(arg, quotePlaceholders) {
      return arg;
    }
    out := "\"";
    var i := 0;
    assert arg[0..] == arg;
    while i < |arg|
      invariant 0 <= i <= |arg|
      invariant out + Escaped(arg[i..]) == "\"" + Escaped(arg)
    {
      if arg[i] == '\\' {
        var end := RunEnd(arg, i);
        EscapedFrom(arg, i, end);
        var backslashCount := end - i;
        if end == |arg| || arg[end] == '"' {
          backslashCount := backslashCount * 2;
        }
        out := AppendBackslashes(out, backslashCount);
        i := end - 1;
      } else if arg[i] == '"' {
        EscapedAt(arg, i);
        out := out + "\\" + "\"";
      } else {
        EscapedAt(arg, i);
        out := out + [arg[i]];
      }
      i := i + 1;
    }
    NothingToEscape(arg[i..]);
    out := out + "\"";
  }

  lemma NothingToEscape(s: string)
    requires |s| == 0
    ensures Escaped(s) == ""
  {
  }

  // The inner search for the end of a run of backslashes.
  method RunEnd(arg: string, i: nat) returns (end: nat)
    requires i < |arg| && arg[i] == '\\'
    ensures i < end <= |arg| && arg[i..end] == Backslashes(end - i)
    ensures end < |arg| ==> arg[end] != '\\'
  {
    end := i + 1;
    OneMoreBackslash(0);
    while end < |arg| && arg[end] == '\\'
      invariant i < end <= |arg| && arg[i..end] == Backslashes(end - i)
    {
      assert arg[i..end + 1] == arg[i..end] + "\\";
      OneMoreBackslash(end - i);
      end := end + 1;
    }
  }

  // The inner output loop.
  method AppendBackslashes(before: string, count: nat) returns (out: string)
    ensures out == before + Backslashes(count)
  {
    out := before;
    for j := 0 to count
      invariant out == before + Backslashes(j)
    {
      out := out + "\\";
      OneMoreBackslash(j);
    }
  }

  // ----- parsing

  // The parser between two characters: inside double quotes or not, whether a token has
  // been started, the backslashes not yet interpreted, the characters of the token, whether
  // the last character closed a quoted part, and the finished tokens.
  datatype Parser = Parser(quoted: bool, started: bool, slashes: nat, token: string, closed: bool, done: seq<string>)

  function Start(done: seq<string>): Parser {
    Parser(false, false, 0, "", false, done)
  }

  predicate IsBlank(c: char) { c == ' ' || c == '\t' }

  /** One character. 2n backslashes and a double quote are n backslashes and a delimiter,
      2n+1 are n backslashes and a literal double quote, other backslashes are literal;
      blanks outside quotes separate tokens. In the later dialect (`pairs`), a double quote
      right behind a closing one is literal and quoting goes on. */
  function Step(p: Parser, c: char, pairs: bool): Parser {
    if c == '\\' then p.(slashes := p.slashes + 1, started := true, closed := false)
    else if c == '"' then
      var token := p.token + Backslashes(p.slashes / 2);
      if p.slashes % 2 == 1 then
        p.(slashes := 0, started := true, closed := false, token := token + "\"")
      else if pairs && p.closed then
        p.(slashes := 0, quoted := true, closed := false, token := token + "\"")
      else
        p.(slashes := 0, started := true, token := token, quoted := !p.quoted, closed := p.quoted)
    else
      var token := p.token + Backslashes(p.slashes);
      if IsBlank(c) && !p.quoted then
        Start(if p.started then p.done + [token] else p.done)
      else
        p.(slashes := 0, started := true, closed := false, token := token + [c])
  }

  function Run(p: Parser, s: string, pairs: bool): Parser
    decreases |s|
  {
    if s == "" then p else Run(Step(p, s[0], pairs), s[1..], pairs)
  }

  function Finish(p: Parser): seq<string> {
    if p.started then p.done + [p.token + Backslashes(p.slashes)] else p.done
  }

  function Parse(s: string, pairs: bool): seq<string> {
    Finish(Run(Start([]), s, pairs))
  }

  lemma {:induction false} RunAppend(p: Parser, a: string, b: string, pairs: bool)
    ensures Run(p, a + b, pairs) == Run(Run(p, a, pairs), b, pairs)
    decreases |a|
  {
    if a == "" {
      assert a + b == b;
    } else {
      assert (a + b)[1..] == a[1..] + b;
      RunAppend(Step(p, a[0], pairs), a[1..], b, pairs);
    }
  }

  // ----- parsing what was quoted

  // What the token will be once the pending backslashes are resolved in front of `rest`.
  function Resolved(p: Parser, rest: string): string {
    p.token + Backslashes(if RunsIntoQuote(rest) then p.slashes / 2 else p.slashes)
  }

  // What the escape of the first character of s does to a parser inside quotes.
  function EscapeOf(s: string): string
    requires s != ""
  {
    if s[0] == '"' then "\\\""
    else if s[0] != '\\' then [s[0]]
    else if RunsIntoQuote(s) then "\\\\"
    else "\\"
  }

  ghost predicate InQuotes(p: Parser, s: string) {
    p.quoted && !p.closed && p.started && (RunsIntoQuote(s) ==> p.slashes % 2 == 0)
  }

  lemma RunEscape(p: Parser, s: string, pairs: bool)
    requires s != "" && InQuotes(p, s)
    ensures var q := Run(p, EscapeOf(s), pairs);
      InQuotes(q, s[1..]) && q.done == p.done && Resolved(q, s[1..]) == Resolved(p, s) + [s[0]]
  {
    var c := s[0];
    if c == '"' {
      RunTwo(p, '\\', '"', pairs);
    } else if c != '\\' {
      RunOne(p, c, pairs);
    } else if RunsIntoQuote(s) {
      RunTwo(p, '\\', '\\', pairs);
      OneMoreBackslash(p.slashes / 2);
    } else {
      RunOne(p, c, pairs);
      OneMoreBackslash(p.slashes);
    }
  }

  lemma RunOne(p: Parser, c: char, pairs: bool)
    ensures Run(p, [c], pairs) == Step(p, c, pairs)
  {
    assert [c][1..] == "";
  }

  lemma RunTwo(p: Parser, c: char, d: char, pairs: bool)
    ensures Run(p, [c, d], pairs) == Step(Step(p, c, pairs), d, pairs)
  {
    assert [c, d][1..] == [d];
    RunOne(Step(p, c, pairs), d, pairs);
  }

  /** Inside quotes, the escaped text followed by the closing quote adds the text itself. */
  lemma {:induction false} RunEscaped(p: Parser, s: string, pairs: bool)
    requires InQuotes(p, s)
    ensures Run(p, Escaped(s) + "\"", pairs) == Parser(false, true, 0, Resolved(p, s) + s, true, p.done)
    decreases |s|
  {
    if s == "" {
      assert Escaped(s) + "\"" == "\"";
      RunOne(p, '"', pairs);
    } else {
      assert Escaped(s) + "\"" == EscapeOf(s) + (Escaped(s[1..]) + "\"");
      hide Run, Escaped;
      RunAppend(p, EscapeOf(s), Escaped(s[1..]) + "\"", pairs);
      RunEscape(p, s, pairs);
      var q := Run(p, EscapeOf(s), pairs);
      RunEscaped(q, s[1..], pairs);
      assert Resolved(q, s[1..]) + s[1..] == Resolved(p, s) + s;
    }
  }
}
