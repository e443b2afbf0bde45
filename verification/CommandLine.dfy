/** base/command_line.cc: the argument vector with its switches in front of its arguments,
    the switch map, parsing from an argument vector, and printing. */
module CommandLines {
  import opened ArgvQuoting
  import opened ArgvRoundTrip
  import opened Options
  import opened Strings

  // ----- names

  function LowerChar(c: char): char {
    if 'A' <= c <= 'Z' then c - 'A' + 'a' else c
  }

  // On Windows switch names are lower-cased.
  function Key(windows: bool, s: string): (t: string)
    ensures |t| == |s|
    ensures forall k :: 0 <= k < |s| ==> t[k] == if windows then LowerChar(s[k]) else s[k]
  {
    if windows then seq(|s|, k requires 0 <= k < |s| => LowerChar(s[k])) else s
  }

  lemma KeyIsIdempotent(windows: bool, s: string)
    ensures Key(windows, Key(windows, s)) == Key(windows, s)
  {
  }

  // ----- switches

  const TERMINATOR := "--"

  // kSwitchPrefixes; on Windows the slash can be switched off.
  datatype Platform = Platform(windows: bool, slashIsSwitch: bool)

  function PrefixLength(p: Platform, s: string): (n: nat)
    ensures n <= |s| && n <= 2
    ensures n > 0 ==> forall k :: 0 <= k < n ==> s[k] == '-' || s[k] == '/'
  {
    if |s| >= 2 && s[0] == '-' && s[1] == '-' then 2
    else if |s| >= 1 && s[0] == '-' then 1
    else if p.windows && p.slashIsSwitch && |s| >= 1 && s[0] == '/' then 1
    else 0
  }

  predicate IsSwitch(p: Platform, s: string) {
    PrefixLength(p, s) != 0 && PrefixLength(p, s) != |s|
  }

  // The position of the first '=', or the length.
  function Equals(s: string): nat { FindFirst(s, '=') }

  // The switch_string, with its prefix, and the switch_value.
  function SwitchName(s: string): string { s[..Equals(s)] }

  function SwitchValue(s: string): string {
    if Equals(s) == |s| then "" else s[Equals(s) + 1..]
  }

  // A switch as AppendSwitchNative puts it into argv: its text with the prefix, its value.
  datatype Switch = Switch(text: string, value: string) {
    function Combined(): string {
      if value == "" then text else text + "=" + value
    }

    function Name(p: Platform): string {
      text[PrefixLength(p, text)..]
    }
  }

  function MakeSwitch(p: Platform, name: string, value: string): Switch {
    var key := Key(p.windows, name);
    Switch(if PrefixLength(p, key) == 0 then "--" + key else key, value)
  }

  // Behind its prefix, the text of a switch is the lower-cased name without any prefix.
  lemma MadeName(p: Platform, name: string, value: string)
    ensures var key := Key(p.windows, name);
      MakeSwitch(p, name, value).Name(p) == key[PrefixLength(p, key)..]
  {
    var key := Key(p.windows, name);
    if PrefixLength(p, key) == 0 {
      assert ("--" + key)[2..] == key;
    }
  }

  function CombinedAll(sw: seq<Switch>): (a: seq<string>)
    ensures |a| == |sw|
  {
    seq(|sw|, k requires 0 <= k < |sw| => sw[k].Combined())
  }

  // The switch map: the last value of a name wins.
  function SwitchMap(p: Platform, sw: seq<Switch>): map<string, string> {
    if sw == [] then map[]
    else
      var last := sw[|sw| - 1];
      SwitchMap(p, sw[..|sw| - 1])[last.Name(p) := last.value]
  }

  lemma InsertSwitch(head: seq<string>, sw: seq<Switch>, args: seq<string>, one: Switch)
    ensures var argv, at := head + CombinedAll(sw) + args, |head| + |sw|;
      argv[..at] + [one.Combined()] + argv[at..] == head + CombinedAll(sw + [one]) + args
  {
    hide Switch.Combined;
    assert CombinedAll(sw + [one]) == CombinedAll(sw) + [one.Combined()];
  }

  lemma MapAppend(p: Platform, sw: seq<Switch>, one: Switch)
    ensures SwitchMap(p, sw + [one]) == SwitchMap(p, sw)[one.Name(p) := one.value]
  {
    assert (sw + [one])[..|sw|] == sw;
  }

  // ----- parsing an argument vector (without the program)

  datatype Parsed = Parsed(switches: seq<Switch>, args: seq<string>)

  function ParseOne(p: Platform, arg: string, parsing: bool): Parsed {
    if parsing && IsSwitch(p, arg) then Parsed([MakeSwitch(p, SwitchName(arg), SwitchValue(arg))], [])
    else Parsed([], [arg])
  }

  function ParseArgs(p: Platform, argv: seq<string>, parsing: bool): Parsed {
    if argv == [] then Parsed([], [])
    else
      var arg := Trim(p.windows, argv[0]);
      var stillParsing := parsing && arg != TERMINATOR;
      var one, rest := ParseOne(p, arg, stillParsing), ParseArgs(p, argv[1..], stillParsing);
      Parsed(one.switches + rest.switches, one.args + rest.args)
  }

  // ----- printing

  // How GetArgumentsStringInternal prints one argument: a switch with its value quoted, or
  // the whole argument quoted; on POSIX without quotes.
  function PieceOf(p: Platform, arg: string, parsing: bool): Piece {
    var piece :=
      if parsing && IsSwitch(p, arg) then
        if SwitchValue(arg) == "" then Piece(SwitchName(arg), None)
        else Piece(SwitchName(arg) + "=", Some(SwitchValue(arg)))
      else Piece("", Some(arg));
    if p.windows then piece else Piece(piece.Text(), None)
  }

  function PiecesOf(p: Platform, args: seq<string>, parsing: bool): (pieces: seq<Piece>)
    ensures |pieces| == |args|
  {
    if args == [] then []
    else
      var stillParsing := parsing && args[0] != TERMINATOR;
      [PieceOf(p, args[0], stillParsing)] + PiecesOf(p, args[1..], stillParsing)
  }

  lemma PieceStandsFor(p: Platform, arg: string, parsing: bool)
    requires p.windows
    ensures StandsFor(PieceOf(p, arg, parsing), arg)
  {
    var n := Equals(arg);
    if parsing && IsSwitch(p, arg) {
      assert arg[0] != '=';
      assert arg == if n == |arg| then arg[..n] else arg[..n] + "=" + arg[n + 1..];
    }
  }

  lemma {:induction false} PiecesStandFor(p: Platform, args: seq<string>, parsing: bool)
    requires p.windows
    ensures Matching(PiecesOf(p, args, parsing), args)
  {
    hide PieceOf, StandsFor;
    if args == [] {
    } else {
      var stillParsing := parsing && args[0] != TERMINATOR;
      PieceStandsFor(p, args[0], stillParsing);
      PiecesStandFor(p, args[1..], stillParsing);
      var pieces := PiecesOf(p, args, parsing);
      forall k | 0 <= k < |args|
        ensures StandsFor(pieces[k], args[k])
      {
        if k > 0 {
          assert StandsFor(pieces[1..][k - 1], args[1..][k - 1]);
        }
      }
    }
  }

  // The string that is still to be appended when `left` pieces are to be printed.
  function StillToPrint(left: seq<Piece>, first: bool, placeholders: bool): string {
    if left == [] then "" else (if first then "" else " ") + Joined(left, placeholders)
  }

  lemma PrintAll(pieces: seq<Piece>, placeholders: bool)
    ensures StillToPrint(pieces, true, placeholders) == Joined(pieces, placeholders)
    ensures forall first :: StillToPrint([], first, placeholders) == ""
  {
  }

  lemma NoPieces(p: Platform, args: seq<string>, parsing: bool)
    requires |args| == 0
    ensures PiecesOf(p, args, parsing) == []
  {
  }

  lemma PrintNext(p: Platform, left: seq<string>, parsing: bool, first: bool, placeholders: bool)
    requires left != []
    ensures var stillParsing := parsing && left[0] != TERMINATOR;
      StillToPrint(PiecesOf(p, left, parsing), first, placeholders)
      == (if first then "" else " ") + PieceOf(p, left[0], stillParsing).Printed(placeholders)
         + StillToPrint(PiecesOf(p, left[1..], stillParsing), false, placeholders)
  {
    hide PieceOf, Piece.Printed, Joined;
    JoinedUnfolds(PiecesOf(p, left, parsing), placeholders);
  }

  class CommandLine {
    const platform: Platform
    var argv: seq<string>
    var switches: map<string, string>
    var switchesByStringPiece: map<string, string>  // to the key whose value it points at
    var beginArgs: nat
    ghost var head: seq<string>           // a wrapper, perhaps, and the program
    ghost var appended: seq<Switch>       // the switches, in append order
    ghost var arguments: seq<string>      // the arguments, in append order

    ghost predicate Valid()
      reads this
    {
      && |head| >= 1
      && argv == head + CombinedAll(appended) + arguments
      && beginArgs == |head| + |appended|
      && switches == SwitchMap(platform, appended)
      && switchesByStringPiece.Keys == switches.Keys
      && forall k :: k in switches ==> switchesByStringPiece[k] == k
    }

    // CommandLine(NO_PROGRAM)
    constructor NoProgram(platform: Platform)
      ensures Valid() && this.platform == platform
      ensures head == [""] && appended == [] && arguments == []
    {
      this.platform := platform;
      argv, beginArgs := [""], 1;
      switches, switchesByStringPiece := map[], map[];
      head, appended, arguments := [""], [], [];
    }

    method SetProgram(program: string)
      requires Valid()
      modifies this`argv, this`head
      ensures Valid() && head == old(head)[0 := Trim(platform.windows, program)]
    {
      argv := argv[0 := Trim(platform.windows, program)];
      head := head[0 := Trim(platform.windows, program)];
    }

    method AppendSwitchNative(switchString: string, value: string)
      requires Valid()
      modifies this
      ensures Valid() && head == old(head) && arguments == old(arguments)
      ensures appended == old(appended) + [MakeSwitch(platform, switchString, value)]
    {
      hide SwitchMap, CombinedAll, Switch.Name, Key;
      ghost var sw := MakeSwitch(platform, switchString, value);
      var switchKey := Key(platform.windows, switchString);
      var combined := switchKey;
      var prefixLength := PrefixLength(platform, combined);
      var name := switchKey[prefixLength..];
      switches := switches[name := value];
      switchesByStringPiece := switchesByStringPiece[name := name];
      if prefixLength == 0 {
        combined := "--" + combined;
      }
      if value != "" {
        combined := combined + ("=" + value);
        assert combined == sw.Combined();
      }
      MadeName(platform, switchString, value);
      MapAppend(platform, appended, sw);
      InsertSwitch(head, appended, arguments, sw);
      argv := argv[..beginArgs] + [combined] + argv[beginArgs..];
      beginArgs := beginArgs + 1;
      appended := appended + [sw];
    }

    method AppendArgNative(value: string)
      requires Valid()
      modifies this`argv, this`arguments
      ensures Valid() && arguments == old(arguments) + [value]
    {
      argv := argv + [value];
      arguments := arguments + [value];
    }

    // What is still to be appended, behind what is there, makes up the given lists.
    ghost predicate Heads(sw: seq<Switch>, args: seq<string>, left: Parsed)
      reads this
    {
      sw == appended + left.switches && args == arguments + left.args
    }

    // The body of the loop of AppendSwitchesAndArguments.
    method AppendOne(arg: string, parseSwitches: bool)
      requires Valid()
      modifies this
      ensures Valid() && head == old(head)
      ensures appended == old(appended) + ParseOne(platform, arg, parseSwitches).switches
      ensures arguments == old(arguments) + ParseOne(platform, arg, parseSwitches).args
    {
      hide Valid, IsSwitch, MakeSwitch;
      if parseSwitches && IsSwitch(platform, arg) {
        AppendSwitchNative(SwitchName(arg), SwitchValue(arg));
      } else {
        AppendArgNative(arg);
      }
    }

    method AppendSwitchesAndArguments(other: seq<string>)
      requires Valid()
      modifies this
      ensures Valid() && head == old(head)
      ensures appended == old(appended) + ParseArgs(platform, WithoutProgram(other), true).switches
      ensures arguments == old(arguments) + ParseArgs(platform, WithoutProgram(other), true).args
    {
      hide Valid, ParseOne, Trim;
      ghost var all := ParseArgs(platform, WithoutProgram(other), true);
      ghost var sw, args := appended + all.switches, arguments + all.args;
      var parseSwitches := true;
      for i := 1 to if other == [] then 1 else |other|
        invariant Valid() && head == old(head)
        invariant Heads(sw, args, ParseArgs(platform, WithoutProgram(other)[i - 1..], parseSwitches))
      {
        var arg := Trim(platform.windows, other[i]);
        assert WithoutProgram(other)[i - 1..][1..] == WithoutProgram(other)[i..];
        parseSwitches := parseSwitches && arg != TERMINATOR;
        AppendOne(arg, parseSwitches);
      }
    }

    method InitFromArgv(other: seq<string>)
      requires Valid()
      modifies this
      ensures Valid() && head == [if other == [] then "" else Trim(platform.windows, other[0])]
      ensures Parsed(appended, arguments) == ParseArgs(platform, WithoutProgram(other), true)
    {
      hide Trim, ParseArgs;
      argv, beginArgs := [""], 1;
      switches, switchesByStringPiece := map[], map[];
      head, appended, arguments := [""], [], [];
      SetProgram(if other == [] then "" else other[0]);
      TrimNothing(platform.windows);
      AppendSwitchesAndArguments(other);
    }

    method AppendArguments(other: CommandLine, includeProgram: bool)
      requires Valid() && other.Valid() && other.argv != [] && other != this
      modifies this
      ensures Valid()
      ensures head == if includeProgram then old(head)[0 := Trim(platform.windows, other.argv[0])] else old(head)
      ensures appended == old(appended) + ParseArgs(platform, other.argv[1..], true).switches
      ensures arguments == old(arguments) + ParseArgs(platform, other.argv[1..], true).args
    {
      hide Trim, ParseArgs;
      if includeProgram {
        SetProgram(other.argv[0]);
      }
      AppendSwitchesAndArguments(other.argv);
    }

    // A wrapper may have arguments of its own, so it is split at spaces. Two spaces in a row
    // make an empty argument.
    method PrependWrapper(wrapper: string)
      requires Valid()
      modifies this
      ensures Valid() && head == TrimmedPieces(platform.windows, wrapper, ' ') + old(head)
      ensures appended == old(appended) && arguments == old(arguments)
    {
      if wrapper == "" {
        return;
      }
      var wrapperArgv := SplitString(platform.windows, wrapper, ' ');
      argv := wrapperArgv + argv;
      beginArgs := beginArgs + |wrapperArgv|;
      head := wrapperArgv + head;
    }

    method GetArgumentsStringInternal(quotePlaceholders: bool) returns (params: string)
      requires Valid()
      ensures params == Joined(PiecesOf(platform, argv[1..], true), quotePlaceholders)
    {
      hide Piece.Printed, Joined, IsSwitch, StillToPrint, PiecesOf, PieceOf;
      ghost var args := argv[1..];
      ghost var all := Joined(PiecesOf(platform, args, true), quotePlaceholders);
      params := "";
      var parseSwitches := true;
      PrintAll(PiecesOf(platform, args, true), quotePlaceholders);
      assert args[0..] == args;
      for i := 1 to |argv|
        invariant all
          == params + StillToPrint(PiecesOf(platform, args[i - 1..], parseSwitches), i == 1, quotePlaceholders)
      {
        var arg := argv[i];
        assert args[i - 1..][0] == arg && args[i - 1..][1..] == args[i..];
        PrintNext(platform, args[i - 1..], parseSwitches, i == 1, quotePlaceholders);
        parseSwitches := parseSwitches && arg != TERMINATOR;
        ghost var before := params;
        if i > 1 {
          params := params + " ";
        }
        var printed := PrintOne(arg, parseSwitches, quotePlaceholders);
        params := params + printed;
        assert params == before + ((if i == 1 then "" else " ") + printed);
      }
      PrintAll([], quotePlaceholders);
      NoPieces(platform, args[|argv| - 1..], parseSwitches);
      assert params + "" == params;
    }

    method PrintOne(arg: string, parseSwitches: bool, quotePlaceholders: bool) returns (printed: string)
      ensures printed == PieceOf(platform, arg, parseSwitches).Printed(quotePlaceholders)
    {
      if parseSwitches && IsSwitch(platform, arg) {
        printed := SwitchName(arg);
        if SwitchValue(arg) != "" {
          var value := SwitchValue(arg);
          if platform.windows {
            value := QuoteForCommandLineToArgvW(value, quotePlaceholders);
          }
          printed := printed + "=" + value;
        }
      } else {
        printed := arg;
        if platform.windows {
          printed := QuoteForCommandLineToArgvW(printed, quotePlaceholders);
        }
        assert printed == "" + printed;
      }
    }

    /** Printing the arguments and taking the line apart again gives argv back if and only if
        each argument comes back (see ComesBack). */
    method PrintAndParse(quotePlaceholders: bool) returns (parsed: seq<string>)
      requires Valid() && platform.windows
      ensures parsed == argv[1..] <==> AllComeBack(PiecesOf(platform, argv[1..], true), argv[1..], quotePlaceholders)
    {
      hide Joined, Parse, AllComeBack, PiecesOf;
      var params := GetArgumentsStringInternal(quotePlaceholders);
      parsed := Parse(params, false);
      PiecesStandFor(platform, argv[1..], true);
      ComesBackExactly(PiecesOf(platform, argv[1..], true), argv[1..], quotePlaceholders);
    }

    // HasSwitch looks into the mirror.
    method HasSwitch(name: string) returns (has: bool)
      requires Valid()
      ensures has <==> name in SwitchMap(platform, appended)
    {
      has := name in switchesByStringPiece;
    }

    method GetSwitchValueNative(name: string) returns (value: string)
      requires Valid()
      ensures value == if name in SwitchMap(platform, appended) then SwitchMap(platform, appended)[name] else ""
    {
      value := if name !in switchesByStringPiece then "" else switches[switchesByStringPiece[name]];
    }

    // The arguments, without the first "--".
    method GetArgs() returns (args: seq<string>)
      requires Valid()
      ensures args == WithoutTerminator(arguments)
    {
      args := argv[beginArgs..];
      assert args == arguments;
      var i := 0;
      while i < |args| && args[i] != TERMINATOR
        invariant 0 <= i <= |args|
        invariant WithoutTerminator(args) == args[..i] + WithoutTerminator(args[i..])
      {
        assert args[i..][1..] == args[i + 1..];
        i := i + 1;
      }
      if i < |args| {
        assert args[i..][1..] == args[i + 1..];
        args := args[..i] + args[i + 1..];
      }
    }
  }

  function WithoutProgram(argv: seq<string>): seq<string> {
    if argv == [] then [] else argv[1..]
  }

  function WithoutTerminator(args: seq<string>): seq<string> {
    if args == [] then [] else if args[0] == TERMINATOR then args[1..] else [args[0]] + WithoutTerminator(args[1..])
  }
}
