/** The parser object, and the table of arguments the configuration registers with it. */
module Cmdline {
  import opened Common
  import opened CommandLine

  lemma UnfoldAt(args: seq<Argument>, argv: seq<string>, i: nat)
    requires i < |argv|
    ensures var k := Find(args, argv[i]);
      ParseTokens(args, argv[i..]) ==
      if k == |args| then State(args, UnknownArgument(argv[i]))
      else if i + 1 < |argv| && LooksLikeValue(argv[i + 1]) then
        ParseTokens(args[k := Given(args[k], argv[i + 1])], argv[i + 2..])
      else if args[k].required && args[k].value == "" then
        State(args[k := Marked(args[k])], RequiresValue(argv[i]))
      else ParseTokens(args[k := Marked(args[k])], argv[i + 1..])
  {
    assert argv[i..][0] == argv[i] && argv[i..][1..] == argv[i + 1..];
    if i + 1 < |argv| {
      assert argv[i..][1] == argv[i + 1] && argv[i..][2..] == argv[i + 2..];
    }
  }

  class CmdlineParser {
    var arguments: seq<Argument>

    constructor ()
      ensures arguments == []
    {
      arguments := [];
    }

    method AddArgument(longName: string, shortName: string, description: string, required: bool, initial: string)
      modifies this
      ensures arguments == old(arguments) + [Argument(longName, shortName, description, required, false, initial)]
    {
      arguments := arguments + [Argument(longName, shortName, description, required, false, initial)];
    }

    method FindArgument(name: string) returns (k: nat)
      ensures k == Find(arguments, name)
    {
      k := 0;
      while k < |arguments| && !Names(arguments[k], name)
        invariant k <= |arguments|
        invariant forall j :: 0 <= j < k ==> !Names(arguments[j], name)
      {
        k := k + 1;
      }
    }

    // The index of the first application token; |argv| + 1 if the separator is missing.
    static method FindSeparator(argv: seq<string>) returns (start: nat)
      ensures start == AfterSeparator(argv, 1)
    {
      start := |argv| + 1;
      var i := 1;
      while i < |argv|
        invariant 1 <= i && start == |argv| + 1
        invariant AfterSeparator(argv, i) == AfterSeparator(argv, 1)
      {
        if argv[i] == "--" {
          start := i + 1;
          break;
        }
        i := i + 1;
      }
    }

    method CheckRequired() returns (outcome: Outcome)
      ensures outcome == FirstMissing(arguments)
    {
      var k := 0;
      while k < |arguments|
        invariant k <= |arguments|
        invariant FirstMissing(arguments[k..]) == FirstMissing(arguments)
      {
        if arguments[k].required && !arguments[k].found {
          return MissingRequired(arguments[k].longName);
        }
        k := k + 1;
      }
      outcome := Parsed;
    }

    // The argument at k takes the token after i as its value, if that looks like one, and i moves over it.
    method TakeValue(argv: seq<string>, i: nat, k: nat) returns (ok: bool, at: nat)
      requires i < |argv| && k < |arguments|
      modifies this
      ensures var valued := i + 1 < |argv| && LooksLikeValue(argv[i + 1]);
        && arguments == old(arguments)[k := if valued then Given(old(arguments)[k], argv[i + 1])
                                            else Marked(old(arguments)[k])]
        && at == (if valued then i + 1 else i)
        && (ok <==> valued || !(old(arguments)[k].required && old(arguments)[k].value == ""))
    {
      ok, at := true, i;
      arguments := arguments[k := Marked(arguments[k])];
      if i + 1 < |argv| && LooksLikeValue(argv[i + 1]) {
        at := i + 1;
        arguments := arguments[k := Given(arguments[k], argv[at])];
      } else if arguments[k].required && arguments[k].value == "" {
        ok := false;
      }
    }

    // The token loop; its body moves the index over a value it takes.
    method ParseFrom(argv: seq<string>, start: nat) returns (outcome: Outcome)
      requires start <= |argv|
      modifies this
      ensures State(arguments, outcome) == ParseTokens(old(arguments), argv[start..])
    {
      var i := start;
      while i < |argv|
        invariant start <= i <= |argv|
        invariant ParseTokens(arguments, argv[i..]) == ParseTokens(old(arguments), argv[start..])
      {
        UnfoldAt(arguments, argv, i);
        var k := FindArgument(argv[i]);
        if k == |arguments| {
          return UnknownArgument(argv[i]);
        }
        var token := argv[i];
        var ok;
        ok, i := TakeValue(argv, i, k);
        if !ok {
          return RequiresValue(token);
        }
        i := i + 1;
      }
      outcome := CheckRequired();
    }

    method Parse(argv: seq<string>) returns (outcome: Outcome)
      modifies this
      ensures State(arguments, outcome) == ParseArgv(old(arguments), argv)
    {
      var start := FindSeparator(argv);
      if start > |argv| {
        if |argv| > 1 {
          return MissingSeparator;
        }
        start := |argv|;
      }
      outcome := ParseFrom(argv, start);
    }

    method GetString(name: string) returns (value: string)
      ensures value == Get(arguments, name)
    {
      var k := FindArgument(name);
      value := if k < |arguments| then arguments[k].value else "";
    }

    method GetBool(name: string) returns (on: bool)
      ensures on <==> Get(arguments, name) in TRUE_WORDS
    {
      var s := GetString(name);
      on := s == "true" || s == "1" || s == "yes" || s == "-h" || s == "--help";
    }
  }

  function Optional(longName: string, shortName: string, description: string, initial: string): Argument {
    Argument(longName, shortName, description, false, false, initial)
  }

  const REGISTERED: seq<Argument> := [
    Optional("--help", "-h", "Show this help menu", "false"),
    Optional("--mode", "-m", "Loopback | Back2Back | Emulator", "Loopback"),
    Optional("--client", "-c", "Operate as Vhost Client", "false"),
    Optional("--threading-mode", "-thmode", "EachQ-TwoThread | EachQ-OneThread | AllQ-TwoThread | AllQ-OneThread",
             "EachQ-OneThread"),
    Optional("--abstract-sockname", "-absn", "Specify a random name. For internal use only", "cm_to_ph_sock"),
    Optional("--port-data-sockname", "-pdsn", "Unix socket path to connect to port data plane", "/tmp/port_data.sock"),
    Optional("--port-control-sockname", "-pcsn", "Unix socket path to connect to port control plane",
             "/tmp/port_ctrl.sock"),
    Optional("--vhost-sockname", "-vsn", "Unix socket path to connect to virtual machine", "/tmp/vhost.sock"),
    Optional("--verbosity", "-v", "Fatal | Error | Warning | Info | Debug | Trace", "Info")
  ]

  // The position of each registered name, read off its text.
  function Position(name: string): nat {
    if name == "--help" || name == "-h" then 0
    else if name == "--mode" || name == "-m" then 1
    else if name == "--client" || name == "-c" then 2
    else if name == "--threading-mode" || name == "-thmode" then 3
    else if name == "--abstract-sockname" || name == "-absn" then 4
    else if name == "--port-data-sockname" || name == "-pdsn" then 5
    else if name == "--port-control-sockname" || name == "-pcsn" then 6
    else if name == "--vhost-sockname" || name == "-vsn" then 7
    else if name == "--verbosity" || name == "-v" then 8
    else 9
  }

  lemma PositionOfEach(k: nat)
    requires k < |REGISTERED|
    ensures Position(REGISTERED[k].longName) == k && Position(REGISTERED[k].shortName) == k
  {
  }

  lemma RegisteredIsDisjoint()
    ensures forall j, k :: 0 <= j < k < |REGISTERED| ==> Disjoint(REGISTERED[j], REGISTERED[k])
  {
    forall j, k | 0 <= j < k < |REGISTERED|
      ensures Disjoint(REGISTERED[j], REGISTERED[k])
    {
      PositionOfEach(j);
      PositionOfEach(k);
    }
  }

  // What ConfigManager::init reports for this command line.
  predicate Accepts(args: seq<Argument>, argv: seq<string>) {
    var s := ParseArgv(args, argv);
    s.outcome.Parsed? && Get(s.args, "--help") !in TRUE_WORDS
  }

  // A value that switches a flag on; the two dashed words cannot be given as values.
  const ON_WORDS: set<string> := {"true", "1", "yes"}

  ghost predicate SwitchedOn(a: Argument, xs: seq<Assignment>) {
    exists i: nat :: LastGiven(a, xs, i) && xs[i].value.value in ON_WORDS
  }

  function Line(program: string, eal: seq<string>, xs: seq<Assignment>): seq<string> {
    [program] + eal + ["--"] + Render(xs)
  }

  ghost predicate NothingRequired(args: seq<Argument>) {
    forall k :: 0 <= k < |args| ==> !args[k].required
  }

  predicate IsFlag(args: seq<Argument>, k: nat, name: string) {
    k < |args| && args[k].value == "false" && Names(args[k], name)
  }

  lemma RegisteredIsDashed()
    ensures forall k :: 0 <= k < |REGISTERED| ==> Dashed(REGISTERED[k]) && !REGISTERED[k].required
  {
  }

  lemma RegisteredFlags()
    ensures IsFlag(REGISTERED, 0, "--help") && IsFlag(REGISTERED, 0, "-h")
    ensures IsFlag(REGISTERED, 2, "--client") && IsFlag(REGISTERED, 2, "-c")
  {
    assert REGISTERED[0].value == "false" && REGISTERED[2].value == "false";
  }

  lemma GoodFromParts(args: seq<Argument>)
    requires forall k :: 0 <= k < |args| ==> Dashed(args[k]) && !args[k].required
    requires forall j, k :: 0 <= j < k < |args| ==> Disjoint(args[j], args[k])
    ensures GoodTable(args) && NothingRequired(args)
  {
  }

  /** The registered table meets every premise below. */
  lemma RegisteredIsGood()
    ensures GoodTable(REGISTERED) && NothingRequired(REGISTERED)
    ensures IsFlag(REGISTERED, 0, "--help") && IsFlag(REGISTERED, 0, "-h")
    ensures IsFlag(REGISTERED, 2, "--client") && IsFlag(REGISTERED, 2, "-c")
  {
    RegisteredIsDashed();
    RegisteredIsDisjoint();
    GoodFromParts(REGISTERED);
    RegisteredFlags();
  }

  lemma OptionalLineParses(args: seq<Argument>, program: string, eal: seq<string>, xs: seq<Assignment>)
    requires GoodTable(args) && NothingRequired(args) && WellFormed(args, xs) && "--" !in eal
    ensures ParseArgv(args, Line(program, eal, xs)).outcome.Parsed?
    ensures Holds(args, xs, ParseArgv(args, Line(program, eal, xs)).args)
  {
    CommandLineRoundTrip(args, program, eal, xs);
    assert Supplied(args, xs) && RequiredNamed(args, xs);
  }

  /** A flag registered with default "false" is on exactly when the last value given to it is an affirmative word:
      naming it bare, as its description invites, leaves it off. */
  lemma FlagIsOnIff(args: seq<Argument>, program: string, eal: seq<string>, xs: seq<Assignment>, k: nat, name: string)
    requires GoodTable(args) && NothingRequired(args) && WellFormed(args, xs) && "--" !in eal
    requires IsFlag(args, k, name)
    ensures Get(ParseArgv(args, Line(program, eal, xs)).args, name) in TRUE_WORDS <==> SwitchedOn(args[k], xs)
  {
    OptionalLineParses(args, program, eal, xs);
    GetReadsLastValue(args, xs, ParseArgv(args, Line(program, eal, xs)).args, k, name);
    LastValueIsLastGiven(args[k], xs);
    forall i: nat | LastGiven(args[k], xs, i)
      ensures xs[i].value.value in TRUE_WORDS <==> xs[i].value.value in ON_WORDS
    {
      assert NoDash(xs[i].value.value);
    }
  }

  /** Start-up stops for the help text exactly when help is switched on by a value. */
  lemma AcceptsIff(args: seq<Argument>, program: string, eal: seq<string>, xs: seq<Assignment>)
    requires GoodTable(args) && NothingRequired(args) && WellFormed(args, xs) && "--" !in eal
    requires IsFlag(args, 0, "--help")
    ensures Accepts(args, Line(program, eal, xs)) <==> !SwitchedOn(args[0], xs)
  {
    OptionalLineParses(args, program, eal, xs);
    FlagIsOnIff(args, program, eal, xs, 0, "--help");
  }

  class ConfigArguments {
    const parser: CmdlineParser

    constructor ()
      ensures fresh(parser) && parser.arguments == REGISTERED
    {
      var p := new CmdlineParser();
      p.AddArgument("--help", "-h", "Show this help menu", false, "false");
      p.AddArgument("--mode", "-m", "Loopback | Back2Back | Emulator", false, "Loopback");
      p.AddArgument("--client", "-c", "Operate as Vhost Client", false, "false");
      p.AddArgument("--threading-mode", "-thmode",
                    "EachQ-TwoThread | EachQ-OneThread | AllQ-TwoThread | AllQ-OneThread", false, "EachQ-OneThread");
      p.AddArgument("--abstract-sockname", "-absn", "Specify a random name. For internal use only", false,
                    "cm_to_ph_sock");
      p.AddArgument("--port-data-sockname", "-pdsn", "Unix socket path to connect to port data plane", false,
                    "/tmp/port_data.sock");
      p.AddArgument("--port-control-sockname", "-pcsn", "Unix socket path to connect to port control plane", false,
                    "/tmp/port_ctrl.sock");
      p.AddArgument("--vhost-sockname", "-vsn", "Unix socket path to connect to virtual machine", false,
                    "/tmp/vhost.sock");
      p.AddArgument("--verbosity", "-v", "Fatal | Error | Warning | Info | Debug | Trace", false, "Info");
      parser := p;
    }

    method Init(argv: seq<string>) returns (ok: bool)
      requires parser.arguments == REGISTERED
      modifies parser
      ensures parser.arguments == ParseArgv(REGISTERED, argv).args
      ensures ok <==> Accepts(REGISTERED, argv)
    {
      var outcome := parser.Parse(argv);
      assert State(parser.arguments, outcome) == ParseArgv(REGISTERED, argv);
      if !outcome.Parsed? {
        return false;
      }
      var help := parser.GetBool("--help");
      ok := !help;
    }
  }
}
