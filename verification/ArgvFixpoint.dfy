/** Feeding the argv() of a parsed command line back through InitFromArgv: exactly when the
    result is the same command line. */
module ArgvFixpoint {
  import opened ArgvParsing
  import opened CommandLines
  import opened Strings

  /** A switch that reads back: if it has no value, its name is not empty and does not end
      in white space. */
  predicate IsStable(p: Platform, sw: Switch) {
    sw.value == "" ==> PrefixLength(p, sw.text) < |sw.text| && IsTrimmed(p.windows, sw.text)
  }

  predicate AllStable(p: Platform, sw: seq<Switch>) {
    forall k :: 0 <= k < |sw| ==> IsStable(p, sw[k])
  }

  // What every switch that was parsed is like.
  predicate WasParsed(p: Platform, sw: Switch) {
    && PrefixLength(p, sw.text) > 0 && '=' !in sw.text && Key(p.windows, sw.text) == sw.text
    && (sw.value != "" ==> !IsWhitespace(p.windows, sw.value[|sw.value| - 1]))
  }

  predicate AllParsed(p: Platform, sw: seq<Switch>) {
    forall k :: 0 <= k < |sw| ==> WasParsed(p, sw[k])
  }

  lemma PrefixBeforeEquals(p: Platform, s: string)
    ensures PrefixLength(p, s) <= Equals(s)
  {
  }

  lemma SwitchWasParsed(p: Platform, arg: string)
    requires IsTrimmed(p.windows, arg) && IsSwitch(p, arg)
    ensures WasParsed(p, MakeSwitch(p, SwitchName(arg), SwitchValue(arg)))
  {
    var name := SwitchName(arg);
    var key := Key(p.windows, name);
    PrefixBeforeEquals(p, arg);
    assert name[0] == arg[0] && key[0] == arg[0];
    KeyIsIdempotent(p.windows, name);
    KeyKeepsEquals(p.windows, name);
  }

  lemma KeyKeepsEquals(windows: bool, s: string)
    requires '=' !in s
    ensures '=' !in Key(windows, s)
  {
    var t := Key(windows, s);
    forall k | 0 <= k < |t|
      ensures t[k] != '='
    {
      assert s[k] in s;
    }
  }

  /** Parsing yields parsed switches, and arguments that are arguments again. */
  lemma {:induction false} ParseYields(p: Platform, argv: seq<string>, parsing: bool)
    ensures var parsed := ParseArgs(p, argv, parsing);
      && AllParsed(p, parsed.switches)
      && ParseArgs(p, parsed.args, parsing) == Parsed([], parsed.args)
  {
    if argv == [] {
    } else {
      var arg := Trim(p.windows, argv[0]);
      var stillParsing := parsing && arg != TERMINATOR;
      var rest := ParseArgs(p, argv[1..], stillParsing);
      ParseYields(p, argv[1..], stillParsing);
      ParseFirst(p, argv[0], argv[1..], parsing);
      ParseFirst(p, arg, rest.args, parsing);
      TrimTwice(p.windows, argv[0]);
      TrimIsTrimmed(p.windows, argv[0]);
      assert argv == [argv[0]] + argv[1..];
      if stillParsing && IsSwitch(p, arg) {
        SwitchWasParsed(p, arg);
        OneMoreParsed(p, MakeSwitch(p, SwitchName(arg), SwitchValue(arg)), rest.switches);
      }
      hide *;
    }
  }

  lemma OneMoreParsed(p: Platform, one: Switch, rest: seq<Switch>)
    requires WasParsed(p, one) && AllParsed(p, rest)
    ensures AllParsed(p, [one] + rest)
  {
    hide WasParsed;
  }

  lemma TrimIsTrimmed(windows: bool, s: string)
    ensures IsTrimmed(windows, Trim(windows, s))
  {
  }

  lemma TrimTwice(windows: bool, s: string)
    ensures Trim(windows, Trim(windows, s)) == Trim(windows, s)
  {
  }

  // The combined string of a parsed switch holds both its parts.
  lemma CombinedHoldsSwitch(p: Platform, sw: Switch)
    requires WasParsed(p, sw)
    ensures var c := sw.Combined();
      Switch(SwitchName(c), SwitchValue(c)) == sw && sw.text <= c
  {
    var c := sw.Combined();
    var rest := c[|sw.text|..];
    assert c == sw.text + rest;
    assert rest == "" || rest == "=" + sw.value;
    FirstIsBehind(sw.text, '=', rest);
  }

  // The combined string of a stable switch is read back as that switch.
  lemma StableReadsBack(p: Platform, sw: Switch)
    requires WasParsed(p, sw) && IsStable(p, sw)
    ensures var c := sw.Combined();
      && Trim(p.windows, c) == c && c != TERMINATOR && IsSwitch(p, c)
      && MakeSwitch(p, SwitchName(c), SwitchValue(c)) == sw
  {
    var c := sw.Combined();
    CombinedHoldsSwitch(p, sw);
    hide FindFirst, Trim, Key;
    assert c[0] == sw.text[0] && !IsWhitespace(p.windows, c[0]);
    assert IsTrimmed(p.windows, c);
    assert IsSwitch(p, c) by {
      if sw.value != "" {
        assert c[|sw.text|] == '=';
      }
    }
  }

  lemma {:induction false} StableSwitchesReadBack(p: Platform, sw: seq<Switch>, args: seq<string>)
    requires AllParsed(p, sw) && AllStable(p, sw)
    requires ParseArgs(p, args, true) == Parsed([], args)
    ensures ParseArgs(p, CombinedAll(sw) + args, true) == Parsed(sw, args)
  {
    hide WasParsed, IsStable, IsSwitch, Trim, MakeSwitch, SwitchName, SwitchValue, Switch.Combined;
    var all := CombinedAll(sw) + args;
    if sw == [] {
      assert all == args;
    } else {
      StableReadsBack(p, sw[0]);
      assert all[0] == sw[0].Combined();
      assert all[1..] == CombinedAll(sw[1..]) + args;
      StableSwitchesReadBack(p, sw[1..], args);
      assert ParseOne(p, all[0], true) == Parsed([sw[0]], []);
      assert sw == [sw[0]] + sw[1..] && args == [] + args;
    }
  }

  // Reading back never finds more switches than there were.
  lemma {:induction false} NoNewSwitches(p: Platform, sw: seq<Switch>, args: seq<string>, parsing: bool)
    requires ParseArgs(p, args, true).switches == []
    ensures |ParseArgs(p, CombinedAll(sw) + args, parsing).switches| <= |sw|
  {
    if sw == [] {
      assert CombinedAll(sw) + args == args;
      if !parsing {
        NoSwitchesWithoutParsing(p, args);
      }
    } else {
      assert (CombinedAll(sw) + args)[1..] == CombinedAll(sw[1..]) + args;
      NoNewSwitches(p, sw[1..], args, parsing && Trim(p.windows, sw[0].Combined()) != TERMINATOR);
    }
  }

  lemma {:induction false} NoSwitchesWithoutParsing(p: Platform, args: seq<string>)
    ensures ParseArgs(p, args, false).switches == []
  {
    if args == [] {
    } else {
      NoSwitchesWithoutParsing(p, args[1..]);
    }
  }

  // An unstable switch is its bare text; that is read as another switch or as none.
  lemma UnstableChanges(p: Platform, sw: Switch)
    requires WasParsed(p, sw) && !IsStable(p, sw)
    ensures var t := Trim(p.windows, sw.Combined());
      t == TERMINATOR || !IsSwitch(p, t) || MakeSwitch(p, SwitchName(t), SwitchValue(t)) != sw
  {
    var t := Trim(p.windows, sw.text);
    if IsTrimmed(p.windows, sw.text) {
      assert t == sw.text;
    } else {
      TrimShortens(p.windows, sw.text);
      if IsSwitch(p, t) {
        SwitchTextLength(p, t);
      }
    }
  }

  lemma SwitchTextLength(p: Platform, t: string)
    requires IsSwitch(p, t) && IsTrimmed(p.windows, t)
    ensures |MakeSwitch(p, SwitchName(t), SwitchValue(t)).text| <= |t|
  {
    SwitchWasParsed(p, t);
    var key := Key(p.windows, SwitchName(t));
    PrefixBeforeEquals(p, t);
    assert key[0] == t[0];
  }

  lemma {:induction false} TrimShortens(windows: bool, s: string)
    ensures |Trim(windows, s)| <= |s| && (!IsTrimmed(windows, s) ==> |Trim(windows, s)| < |s|)
    decreases |s|
  {
    if s == "" {
    } else {
      TrimShortens(windows, s[1..]);
      TrimShortens(windows, s[..|s| - 1]);
    }
  }

  lemma {:induction false} UnstableIsLost(p: Platform, sw: seq<Switch>, args: seq<string>)
    requires AllParsed(p, sw) && !AllStable(p, sw)
    requires ParseArgs(p, args, true) == Parsed([], args)
    ensures ParseArgs(p, CombinedAll(sw) + args, true).switches != sw
  {
    hide WasParsed, IsStable, IsSwitch, Trim, MakeSwitch;
    var all := CombinedAll(sw) + args;
    assert all[1..] == CombinedAll(sw[1..]) + args;
    var t := Trim(p.windows, all[0]);
    var one := ParseOne(p, t, t != TERMINATOR);
    var rest := ParseArgs(p, all[1..], t != TERMINATOR);
    NoNewSwitches(p, sw[1..], args, t != TERMINATOR);
    if one.switches == [] {
      assert |ParseArgs(p, all, true).switches| < |sw|;
    } else if IsStable(p, sw[0]) {
      UnstableIsLost(p, sw[1..], args);
      assert ParseArgs(p, all, true).switches[1..] == rest.switches;
    } else {
      UnstableChanges(p, sw[0]);
      assert ParseArgs(p, all, true).switches[0] == one.switches[0];
    }
  }

  /** The switches and arguments of any parsed argv, laid out as argv() lays them out, parse
      to themselves if and only if every switch is stable. */
  lemma ParsesToItself(p: Platform, argv: seq<string>)
    ensures var parsed := ParseArgs(p, argv, true);
      ParseArgs(p, CombinedAll(parsed.switches) + parsed.args, true) == parsed <==> AllStable(p, parsed.switches)
  {
    var parsed := ParseArgs(p, argv, true);
    ParseYields(p, argv, true);
    if AllStable(p, parsed.switches) {
      StableSwitchesReadBack(p, parsed.switches, parsed.args);
    } else {
      UnstableIsLost(p, parsed.switches, parsed.args);
    }
  }

  /** One argv that does not parse to itself: "--=" becomes the switch "--", which is then
      taken for the terminator. */
  lemma SomeArgvChanges(p: Platform)
    ensures ParseArgs(p, ["--="], true) == Parsed([Switch("--", "")], [])
    ensures ParseArgs(p, ["--"], true) == Parsed([], ["--"])
  {
    var s := "--=";
    assert s == "--" + "=";
    FirstIsBehind("--", '=', "=");
    assert SwitchName(s) == "--" && SwitchValue(s) == "";
    assert Key(p.windows, "--") == "--";
    OneArgument(p, s);
    OneArgument(p, "--");
  }

  lemma OneArgument(p: Platform, arg: string)
    requires IsTrimmed(p.windows, arg)
    ensures ParseArgs(p, [arg], true) == ParseOne(p, arg, arg != TERMINATOR)
  {
    assert [arg][1..] == [];
  }

  // Parsed switches can be told from how they are laid out, if it is known how many there are.
  lemma LayoutHoldsSwitches(p: Platform, head: seq<string>, a: Parsed, b: Parsed)
    requires AllParsed(p, a.switches) && AllParsed(p, b.switches) && |a.switches| == |b.switches|
    requires head + CombinedAll(a.switches) + a.args == head + CombinedAll(b.switches) + b.args
    ensures a == b
  {
    hide WasParsed, Switch.Combined, SwitchName, SwitchValue;
    var layout, n, m := head + CombinedAll(a.switches) + a.args, |head|, |a.switches|;
    forall k | 0 <= k < m
      ensures a.switches[k] == b.switches[k]
    {
      assert layout[n + k] == a.switches[k].Combined() == b.switches[k].Combined();
      CombinedHoldsSwitch(p, a.switches[k]);
      CombinedHoldsSwitch(p, b.switches[k]);
    }
    assert a.args == layout[n + m..] == b.args;
  }

  /** InitFromArgv on argv() of a command line that InitFromArgv made: the switches and the
      arguments, and likewise argv with its divider, come out the same if and only if every
      switch is stable, and then the map does too. */
  method InitTwice(platform: Platform, given: seq<string>) returns (first: CommandLine, second: CommandLine)
    ensures first.Valid() && second.Valid() && first.platform == second.platform == platform
    ensures first.head == second.head
    ensures (second.appended == first.appended && second.arguments == first.arguments)
       <==> AllStable(platform, ParseArgs(platform, WithoutProgram(given), true).switches)
    ensures (second.argv == first.argv && second.beginArgs == first.beginArgs)
       <==> AllStable(platform, ParseArgs(platform, WithoutProgram(given), true).switches)
    ensures second.argv == first.argv && second.beginArgs == first.beginArgs ==> second.switches == first.switches
  {
    hide Trim, ParseArgs, AllStable, AllParsed, CombinedAll, SwitchMap;
    first := new CommandLine.NoProgram(platform);
    first.InitFromArgv(given);
    second := new CommandLine.NoProgram(platform);
    second.InitFromArgv(first.argv);
    ghost var parsed := ParseArgs(platform, WithoutProgram(given), true);
    assert WithoutProgram(first.argv) == CombinedAll(parsed.switches) + parsed.args;
    TrimTwice(platform.windows, if given == [] then "" else given[0]);
    TrimNothing(platform.windows);
    ParsesToItself(platform, WithoutProgram(given));
    ParseYields(platform, WithoutProgram(given), true);
    ParseYields(platform, WithoutProgram(first.argv), true);
    if second.argv == first.argv && second.beginArgs == first.beginArgs {
      LayoutHoldsSwitches(platform, first.head, parsed, ParseArgs(platform, WithoutProgram(first.argv), true));
    }
  }
}
