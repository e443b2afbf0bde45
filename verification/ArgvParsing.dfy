/** What parsing an argument vector does, in terms of the strings themselves: which arguments
    are switches, where parsing stops, and which value a switch has. */
module ArgvParsing {
  import opened CommandLines
  import opened Positions
  import opened Strings

  /** An argument is a switch if it begins with '-' and is neither "-" nor "--"; and on Windows,
      where slashes are taken for switches, if it begins with '/' and has more than that. */
  lemma SwitchesAre(p: Platform, s: string)
    ensures IsSwitch(p, s) <==>
      || (s != "" && s[0] == '-' && s != "-" && s != "--")
      || (p.windows && p.slashIsSwitch && |s| > 1 && s[0] == '/')
  {
    assert |s| == 1 && s[0] == '-' ==> s == "-";
    assert |s| == 2 && s[0] == '-' && s[1] == '-' ==> s == "--";
  }

  /** A switch that is given as prefix, name, '=' and value has this name, lower-cased on
      Windows, and this value; without '=' it has none. */
  lemma SwitchIsRead(p: Platform, prefix: string, name: string, value: string)
    requires prefix in {"--", "-"} || (prefix == "/" && p.windows && p.slashIsSwitch)
    requires name != "" && '=' !in name && name[0] != '-' && name[0] != '/'
    ensures var one := ParseOne(p, prefix + name + "=" + value, true);
      && one.args == [] && |one.switches| == 1
      && one.switches[0].Name(p) == Key(p.windows, name) && one.switches[0].value == value
      && one.switches[0].text == prefix + Key(p.windows, name)
    ensures var one := ParseOne(p, prefix + name, true);
      && one.args == [] && |one.switches| == 1
      && one.switches[0].Name(p) == Key(p.windows, name) && one.switches[0].value == ""
      && one.switches[0].text == prefix + Key(p.windows, name)
  {
    var text := prefix + name;
    assert text[|prefix|] == name[0] && (forall k :: 0 <= k < |prefix| ==> text[k] == prefix[k]);
    NoEquals(prefix, name);
    FirstIsBehind(text, '=', "=" + value);
    FirstIsBehind(text, '=', "");
    assert text + "" == text && prefix + name + "=" + value == text + ("=" + value);
    PrefixStays(p, prefix, name);
  }

  /** On Windows no capital letter is left in a name, and letters that are not capital stay. */
  lemma NamesAreLowered(name: string, k: nat)
    requires k < |name|
    ensures 'A' <= name[k] <= 'Z' ==> 'a' <= Key(true, name)[k] <= 'z' && Key(true, name)[k] - name[k] == ' '
    ensures !('A' <= name[k] <= 'Z') ==> Key(true, name)[k] == name[k]
    ensures Key(false, name) == name
  {
  }

  lemma NoEquals(prefix: string, name: string)
    requires prefix in {"--", "-", "/"} && '=' !in name
    ensures '=' !in prefix + name
  {
  }

  lemma PrefixStays(p: Platform, prefix: string, name: string)
    requires prefix in {"--", "-"} || (prefix == "/" && p.windows && p.slashIsSwitch)
    requires name != "" && name[0] != '-' && name[0] != '/'
    ensures Key(p.windows, prefix + name) == prefix + Key(p.windows, name)
    ensures PrefixLength(p, prefix + Key(p.windows, name)) == |prefix| == PrefixLength(p, prefix + name)
  {
  }

  lemma ParseFirst(p: Platform, first: string, rest: seq<string>, parsing: bool)
    ensures var arg := Trim(p.windows, first);
      var stillParsing := parsing && arg != TERMINATOR;
      var others := ParseArgs(p, rest, stillParsing);
      ParseArgs(p, [first] + rest, parsing)
      == if stillParsing && IsSwitch(p, arg)
         then Parsed([MakeSwitch(p, SwitchName(arg), SwitchValue(arg))] + others.switches, others.args)
         else Parsed(others.switches, [arg] + others.args)
  {
    assert ([first] + rest)[1..] == rest;
    hide IsSwitch, MakeSwitch, SwitchName, SwitchValue, Trim;
  }

  function Together(a: Parsed, b: Parsed): Parsed {
    Parsed(a.switches + b.switches, a.args + b.args)
  }

  // What one argument adds while parsing goes on.
  function One(p: Platform, arg: string): Parsed {
    ParseOne(p, Trim(p.windows, arg), true)
  }

  lemma TogetherRegroups(a: Parsed, b: Parsed, c: Parsed)
    ensures Together(a, Together(b, c)) == Together(Together(a, b), c)
    ensures Together(Parsed([], []), a) == a == Together(a, Parsed([], []))
  {
  }

  lemma OneMore(p: Platform, argv: seq<string>)
    requires argv != [] && Trim(p.windows, argv[0]) != "--"
    ensures ParseArgs(p, argv, true) == Together(One(p, argv[0]), ParseArgs(p, argv[1..], true))
  {
    hide IsSwitch, MakeSwitch, Trim;
  }

  lemma {:induction false} OnlyArguments(p: Platform, argv: seq<string>)
    ensures ParseArgs(p, argv, false) == Parsed([], TrimAll(p.windows, argv))
  {
    if argv == [] {
    } else {
      OnlyArguments(p, argv[1..]);
      TrimFirst(p.windows, argv[0], argv[1..]);
      assert argv == [argv[0]] + argv[1..];
      hide Trim, TrimAll;
    }
  }

  lemma Stops(p: Platform, argv: seq<string>)
    requires argv != [] && Trim(p.windows, argv[0]) == "--"
    ensures ParseArgs(p, argv, true) == Parsed([], ["--"] + TrimAll(p.windows, argv[1..]))
  {
    OnlyArguments(p, argv[1..]);
    hide Trim, TrimAll;
  }

  lemma {:induction false} StopsAt(p: Platform, argv: seq<string>, k: nat)
    requires k < |argv| && Trim(p.windows, argv[k]) == "--"
    requires forall j :: 0 <= j < k ==> Trim(p.windows, argv[j]) != "--"
    ensures ParseArgs(p, argv, true)
         == Together(ParseArgs(p, argv[..k], true), Parsed([], ["--"] + TrimAll(p.windows, argv[k + 1..])))
  {
    hide Trim, ParseArgs, Together, One, TrimAll;
    var rest := Parsed([], ["--"] + TrimAll(p.windows, argv[k + 1..]));
    if k == 0 {
      Stops(p, argv);
      assert argv[..0] == [];
      NothingToParse(p);
      TogetherRegroups(rest, rest, rest);
    } else {
      OneMore(p, argv);
      StopsAt(p, argv[1..], k - 1);
      assert argv[1..][..k - 1] == argv[..k][1..] && argv[1..][k..] == argv[k + 1..];
      OneMore(p, argv[..k]);
      TogetherRegroups(One(p, argv[0]), ParseArgs(p, argv[..k][1..], true), rest);
    }
  }

  lemma NothingToParse(p: Platform)
    ensures ParseArgs(p, [], true) == Parsed([], [])
  {
  }

  /** Parsing stops at the first argument that is, trimmed, "--": what is behind it is an
      argument whatever it looks like, and it is one itself. */
  lemma TerminatorStops(p: Platform, argv: seq<string>, k: nat)
    requires k < |argv| && Trim(p.windows, argv[k]) == "--"
    requires forall j :: 0 <= j < k ==> Trim(p.windows, argv[j]) != "--"
    ensures var before := ParseArgs(p, argv[..k], true);
      ParseArgs(p, argv, true)
      == Parsed(before.switches, before.args + ["--"] + TrimAll(p.windows, argv[k + 1..]))
  {
    StopsAt(p, argv, k);
    hide Trim, TrimAll, ParseArgs;
    Regroup(ParseArgs(p, argv[..k], true).args, ["--"], TrimAll(p.windows, argv[k + 1..]));
  }

  /** Without one it goes on to the end: each argument adds a switch if it is one, and else an
      argument. */
  lemma {:induction false} NeverStops(p: Platform, argv: seq<string>, last: string)
    requires forall j :: 0 <= j < |argv| ==> Trim(p.windows, argv[j]) != "--"
    ensures var before, arg := ParseArgs(p, argv, true), Trim(p.windows, last);
      ParseArgs(p, argv + [last], true)
      == if IsSwitch(p, arg)
         then Parsed(before.switches + [MakeSwitch(p, SwitchName(arg), SwitchValue(arg))], before.args)
         else Parsed(before.switches, before.args + [arg])
  {
    LastIsAdded(p, argv, last);
    hide Trim, ParseArgs, IsSwitch, MakeSwitch;
  }

  lemma {:induction false} LastIsAdded(p: Platform, argv: seq<string>, last: string)
    requires forall j :: 0 <= j < |argv| ==> Trim(p.windows, argv[j]) != "--"
    ensures ParseArgs(p, argv + [last], true) == Together(ParseArgs(p, argv, true), One(p, last))
  {
    hide Trim, ParseArgs, Together, One;
    var one := One(p, last);
    if argv == [] {
      assert argv + [last] == [last];
      JustOne(p, last);
      NothingToParse(p);
      TogetherRegroups(one, one, one);
    } else {
      OneMore(p, argv);
      LastIsAdded(p, argv[1..], last);
      assert (argv + [last])[1..] == argv[1..] + [last] && (argv + [last])[0] == argv[0];
      OneMore(p, argv + [last]);
      TogetherRegroups(One(p, argv[0]), ParseArgs(p, argv[1..], true), one);
    }
  }

  lemma JustOne(p: Platform, arg: string)
    ensures ParseArgs(p, [arg], true) == One(p, arg)
  {
    var parsing := Trim(p.windows, arg) != TERMINATOR;
    assert [arg][1..] == [] && ParseArgs(p, [], parsing) == Parsed([], []);
    hide Trim;
  }

  // ----- the values of switches, and the arguments

  /** The map has the names of the switches, each with the value that was given last: that of
      the i-th switch if none behind it has its name. */
  lemma {:induction false} LastValueWins(p: Platform, sw: seq<Switch>, i: nat)
    requires i < |sw| && forall j :: i < j < |sw| ==> sw[j].Name(p) != sw[i].Name(p)
    ensures sw[i].Name(p) in SwitchMap(p, sw) && SwitchMap(p, sw)[sw[i].Name(p)] == sw[i].value
  {
    hide Switch.Name;
    if i == |sw| - 1 {
    } else {
      assert sw[..|sw| - 1][i] == sw[i];
      LastValueWins(p, sw[..|sw| - 1], i);
    }
  }

  lemma {:induction false} NoSuchSwitch(p: Platform, sw: seq<Switch>, name: string)
    requires forall i :: 0 <= i < |sw| ==> sw[i].Name(p) != name
    ensures name !in SwitchMap(p, sw)
  {
    hide Switch.Name;
    if sw == [] {
    } else {
      NoSuchSwitch(p, sw[..|sw| - 1], name);
    }
  }

  /** GetArgs leaves out the first "--" and nothing else. */
  lemma {:induction false} FirstTerminatorIsDropped(args: seq<string>, k: nat)
    requires k <= |args| && (k < |args| ==> args[k] == "--") && forall j :: 0 <= j < k ==> args[j] != "--"
    ensures WithoutTerminator(args) == if k < |args| then args[..k] + args[k + 1..] else args
  {
    if k == 0 {
    } else {
      FirstTerminatorIsDropped(args[1..], k - 1);
      assert args[1..][..k - 1] == args[1..k] && args[..k] == [args[0]] + args[1..k];
      assert args == [args[0]] + args[1..];
    }
  }
}
