/**
 What the command-line parser computes on a token list, and what it is for: a list of assignments, written out with
 long or short names, is read back as those assignments.
 */
module CommandLine {
  import opened Common

  datatype Argument = Argument(
    longName: string,
    shortName: string,
    description: string,
    required: bool,
    found: bool,
    value: string)

  datatype Outcome =
    | Parsed
    | MissingSeparator
    | UnknownArgument(token: string)
    | RequiresValue(token: string)
    | MissingRequired(longName: string)

  predicate Names(a: Argument, name: string) {
    name == a.longName || name == a.shortName
  }

  function Marked(a: Argument): Argument {
    Argument(a.longName, a.shortName, a.description, a.required, true, a.value)
  }

  function Given(a: Argument, value: string): Argument {
    Argument(a.longName, a.shortName, a.description, a.required, true, value)
  }

  // The first argument with this name; |args| if there is none.
  function Find(args: seq<Argument>, name: string): (k: nat)
    ensures k <= |args|
    ensures k < |args| ==> Names(args[k], name)
    ensures forall j :: 0 <= j < k ==> !Names(args[j], name)
  {
    if args == [] || Names(args[0], name) then 0 else 1 + Find(args[1..], name)
  }

  // An empty token is taken as a value: its first character is the terminator.
  predicate LooksLikeValue(token: string) {
    token == "" || token[0] != '-'
  }

  function FirstMissing(args: seq<Argument>): Outcome {
    if args == [] then Parsed
    else if args[0].required && !args[0].found then MissingRequired(args[0].longName)
    else FirstMissing(args[1..])
  }

  datatype State = State(args: seq<Argument>, outcome: Outcome)

  function ParseTokens(args: seq<Argument>, tokens: seq<string>): State
    decreases |tokens|
  {
    if tokens == [] then State(args, FirstMissing(args))
    else
      var k := Find(args, tokens[0]);
      if k == |args| then State(args, UnknownArgument(tokens[0]))
      else if |tokens| > 1 && LooksLikeValue(tokens[1]) then
        ParseTokens(args[k := Given(args[k], tokens[1])], tokens[2..])
      else if args[k].required && args[k].value == "" then
        State(args[k := Marked(args[k])], RequiresValue(tokens[0]))
      else ParseTokens(args[k := Marked(args[k])], tokens[1..])
  }

  // The index after the first separator at or beyond i; |argv| + 1 if there is none.
  function AfterSeparator(argv: seq<string>, i: nat): (start: nat)
    decreases |argv| - i
  {
    if i >= |argv| then |argv| + 1
    else if argv[i] == "--" then i + 1
    else AfterSeparator(argv, i + 1)
  }

  function ParseArgv(args: seq<Argument>, argv: seq<string>): State {
    var start := AfterSeparator(argv, 1);
    if start <= |argv| then ParseTokens(args, argv[start..])
    else if |argv| > 1 then State(args, MissingSeparator)
    else ParseTokens(args, [])
  }

  function Get(args: seq<Argument>, name: string): string {
    var k := Find(args, name);
    if k < |args| then args[k].value else ""
  }

  const TRUE_WORDS: set<string> := {"true", "1", "yes", "-h", "--help"}

  // ---- what a command line means ----

  datatype Assignment = Assignment(name: string, value: Option<string>)

  function Rendered(x: Assignment): seq<string> {
    if x.value.Some? then [x.name, x.value.value] else [x.name]
  }

  function Render(xs: seq<Assignment>): seq<string> {
    if xs == [] then [] else Rendered(xs[0]) + Render(xs[1..])
  }

  // The value the last assignment that gives this argument one gave it, or else its own.
  function LastValue(a: Argument, xs: seq<Assignment>): string {
    if xs == [] then a.value
    else
      var x := xs[|xs| - 1];
      if Names(a, x.name) && x.value.Some? then x.value.value else LastValue(a, xs[..|xs| - 1])
  }

  ghost predicate Mentioned(a: Argument, xs: seq<Assignment>) {
    exists i :: 0 <= i < |xs| && Names(a, xs[i].name)
  }

  // The table after these assignments.
  ghost predicate Holds(args: seq<Argument>, xs: seq<Assignment>, final: seq<Argument>) {
    && |final| == |args|
    && forall k :: 0 <= k < |args| ==> IsAssigned(args[k], xs, final[k])
  }

  ghost predicate IsAssigned(a: Argument, xs: seq<Assignment>, b: Argument) {
    b == Argument(a.longName, a.shortName, a.description, a.required, a.found || Mentioned(a, xs), LastValue(a, xs))
  }

  // Wherever a required argument is named without a value it already has one.
  ghost predicate Supplied(args: seq<Argument>, xs: seq<Assignment>) {
    forall k, i :: 0 <= k < |args| && 0 <= i < |xs| ==> SuppliedAt(args[k], xs, i)
  }

  ghost predicate SuppliedAt(a: Argument, xs: seq<Assignment>, i: nat)
    requires i < |xs|
  {
    a.required && Names(a, xs[i].name) && xs[i].value.None? ==> LastValue(a, xs[..i]) != ""
  }

  ghost predicate RequiredNamed(args: seq<Argument>, xs: seq<Assignment>) {
    forall k :: 0 <= k < |args| && args[k].required ==> args[k].found || Mentioned(args[k], xs)
  }

  // Every assignment names a registered argument and its value cannot be taken for a name.
  ghost predicate WellFormed(args: seq<Argument>, xs: seq<Assignment>) {
    forall i :: 0 <= i < |xs| ==>
      Find(args, xs[i].name) < |args| && (xs[i].value.Some? ==> NoDash(xs[i].value.value))
  }

  predicate NoDash(value: string) {
    value == "" || value[0] != '-'
  }

  // What the registered table must look like: names begin with a dash and no two arguments share one.
  ghost predicate GoodTable(args: seq<Argument>) {
    && (forall k :: 0 <= k < |args| ==> Dashed(args[k]))
    && (forall j, k :: 0 <= j < k < |args| ==> Disjoint(args[j], args[k]))
  }

  predicate Dashed(a: Argument) {
    && a.longName != "" && a.longName[0] == '-'
    && a.shortName != "" && a.shortName[0] == '-'
  }

  predicate Disjoint(a: Argument, b: Argument) {
    !Names(a, b.longName) && !Names(a, b.shortName)
  }

  // ---- one assignment ----

  function Applied(a: Argument, x: Assignment): Argument {
    if !Names(a, x.name) then a
    else if x.value.Some? then Given(a, x.value.value)
    else Marked(a)
  }

  function Step(args: seq<Argument>, x: Assignment): (next: seq<Argument>)
    requires Find(args, x.name) < |args|
  {
    var k := Find(args, x.name);
    args[k := Applied(args[k], x)]
  }

  lemma StepAppliesEverywhere(args: seq<Argument>, x: Assignment)
    requires GoodTable(args) && Find(args, x.name) < |args|
    ensures forall j :: 0 <= j < |args| ==> Step(args, x)[j] == Applied(args[j], x)
  {
    var k := Find(args, x.name);
    forall j | 0 <= j < |args|
      ensures Step(args, x)[j] == Applied(args[j], x)
    {
      if j < k {
        assert Disjoint(args[j], args[k]);
      } else if k < j {
        assert Disjoint(args[k], args[j]);
      }
    }
  }

  lemma {:induction false} FindByNames(args: seq<Argument>, other: seq<Argument>, name: string)
    requires |args| == |other|
    requires forall j :: 0 <= j < |args| ==> Names(args[j], name) == Names(other[j], name)
    ensures Find(args, name) == Find(other, name)
  {
    if args != [] {
      FindByNames(args[1..], other[1..], name);
    }
  }

  lemma FindsItsOwn(args: seq<Argument>, k: nat, name: string)
    requires GoodTable(args) && k < |args| && Names(args[k], name)
    ensures Find(args, name) == k
  {
    assert forall j :: 0 <= j < k ==> Disjoint(args[j], args[k]);
  }

  lemma StepKeepsTable(args: seq<Argument>, x: Assignment, xs: seq<Assignment>)
    requires GoodTable(args) && Find(args, x.name) < |args| && WellFormed(args, xs)
    ensures GoodTable(Step(args, x)) && WellFormed(Step(args, x), xs)
  {
    StepAppliesEverywhere(args, x);
    var next := Step(args, x);
    forall k | 0 <= k < |next|
      ensures Dashed(next[k])
    {
      assert Dashed(args[k]);
    }
    forall j, k | 0 <= j < k < |next|
      ensures Disjoint(next[j], next[k])
    {
      assert Disjoint(args[j], args[k]);
    }
    forall i | 0 <= i < |xs|
      ensures Find(next, xs[i].name) == Find(args, xs[i].name)
    {
      FindByNames(args, next, xs[i].name);
    }
  }

  lemma {:induction false} LastValueFromFront(a: Argument, x: Assignment, xs: seq<Assignment>)
    ensures LastValue(a, [x] + xs) == LastValue(Applied(a, x), xs)
  {
    if xs == [] {
      assert ([x] + xs)[..0] == [];
    } else {
      assert ([x] + xs)[..|xs|] == [x] + xs[..|xs| - 1];
      LastValueFromFront(a, x, xs[..|xs| - 1]);
    }
  }

  lemma MentionedFromFront(a: Argument, x: Assignment, xs: seq<Assignment>)
    ensures Mentioned(a, [x] + xs) <==> Names(a, x.name) || Mentioned(Applied(a, x), xs)
  {
    var all := [x] + xs;
    if Names(a, x.name) {
      assert Names(a, all[0].name);
    }
    if Mentioned(Applied(a, x), xs) {
      var i :| 0 <= i < |xs| && Names(Applied(a, x), xs[i].name);
      assert Names(a, all[i + 1].name);
    }
    if Mentioned(a, all) {
      var i :| 0 <= i < |all| && Names(a, all[i].name);
      if i > 0 {
        assert Names(Applied(a, x), xs[i - 1].name);
      }
    }
  }

  lemma AssignedFromFront(a: Argument, x: Assignment, xs: seq<Assignment>, b: Argument)
    ensures IsAssigned(Applied(a, x), xs, b) <==> IsAssigned(a, [x] + xs, b)
  {
    LastValueFromFront(a, x, xs);
    MentionedFromFront(a, x, xs);
  }

  lemma HoldsFromFront(args: seq<Argument>, x: Assignment, xs: seq<Assignment>, final: seq<Argument>)
    requires GoodTable(args) && Find(args, x.name) < |args|
    ensures Holds(Step(args, x), xs, final) <==> Holds(args, [x] + xs, final)
  {
    StepAppliesEverywhere(args, x);
    forall k | 0 <= k < |args| && |final| == |args|
      ensures IsAssigned(Step(args, x)[k], xs, final[k]) <==> IsAssigned(args[k], [x] + xs, final[k])
    {
      AssignedFromFront(args[k], x, xs, final[k]);
    }
  }

  lemma RequiredFromFront(args: seq<Argument>, x: Assignment, xs: seq<Assignment>)
    requires GoodTable(args) && Find(args, x.name) < |args|
    ensures RequiredNamed(Step(args, x), xs) <==> RequiredNamed(args, [x] + xs)
  {
    StepAppliesEverywhere(args, x);
    forall k | 0 <= k < |args|
      ensures args[k].found || Mentioned(args[k], [x] + xs)
        <==> Step(args, x)[k].found || Mentioned(Step(args, x)[k], xs)
    {
      MentionedFromFront(args[k], x, xs);
    }
  }

  lemma SuppliedAtFromFront(a: Argument, x: Assignment, xs: seq<Assignment>, i: nat)
    requires i < |xs|
    ensures SuppliedAt(Applied(a, x), xs, i) <==> SuppliedAt(a, [x] + xs, i + 1)
  {
    assert ([x] + xs)[..i + 1] == [x] + xs[..i];
    LastValueFromFront(a, x, xs[..i]);
  }

  // The parser's test at one token.
  predicate Refused(args: seq<Argument>, x: Assignment)
    requires Find(args, x.name) < |args|
  {
    var a := args[Find(args, x.name)];
    x.value.None? && a.required && a.value == ""
  }

  lemma RefusedIff(args: seq<Argument>, x: Assignment, xs: seq<Assignment>)
    requires GoodTable(args) && Find(args, x.name) < |args|
    ensures Refused(args, x) <==> exists k :: 0 <= k < |args| && !SuppliedAt(args[k], [x] + xs, 0)
  {
    var k := Find(args, x.name);
    assert ([x] + xs)[..0] == [];
    if Refused(args, x) {
      assert !SuppliedAt(args[k], [x] + xs, 0);
    }
    forall j | 0 <= j < |args| && j != k
      ensures SuppliedAt(args[j], [x] + xs, 0)
    {
      assert if j < k then Disjoint(args[j], args[k]) else Disjoint(args[k], args[j]);
    }
  }

  lemma SuppliedFromFront(args: seq<Argument>, x: Assignment, xs: seq<Assignment>)
    requires GoodTable(args) && Find(args, x.name) < |args|
    ensures Supplied(args, [x] + xs) <==> !Refused(args, x) && Supplied(Step(args, x), xs)
  {
    RefusedIff(args, x, xs);
    StepAppliesEverywhere(args, x);
    forall k, i | 0 <= k < |args| && 0 <= i < |xs|
      ensures SuppliedAt(Step(args, x)[k], xs, i) <==> SuppliedAt(args[k], [x] + xs, i + 1)
    {
      SuppliedAtFromFront(args[k], x, xs, i);
    }
    if !Refused(args, x) && Supplied(Step(args, x), xs) {
      forall k, i | 0 <= k < |args| && 0 <= i < |[x] + xs|
        ensures SuppliedAt(args[k], [x] + xs, i)
      {
        if i > 0 {
          assert SuppliedAt(Step(args, x)[k], xs, i - 1);
        }
      }
    }
    if Supplied(args, [x] + xs) {
      forall k, i | 0 <= k < |args| && 0 <= i < |xs|
        ensures SuppliedAt(Step(args, x)[k], xs, i)
      {
        assert SuppliedAt(args[k], [x] + xs, i + 1);
      }
    }
  }

  // ---- the round trip ----

  predicate IsFirstMissing(args: seq<Argument>, k: nat)
    requires k < |args|
  {
    args[k].required && !args[k].found && forall j | 0 <= j < k :: args[j].required ==> args[j].found
  }

  lemma {:induction false} FirstMissingMeans(args: seq<Argument>)
    ensures FirstMissing(args).Parsed? || FirstMissing(args).MissingRequired?
    ensures FirstMissing(args).Parsed? <==> forall k :: 0 <= k < |args| && args[k].required ==> args[k].found
    ensures FirstMissing(args).MissingRequired? ==>
      exists k :: 0 <= k < |args| && IsFirstMissing(args, k) && FirstMissing(args).longName == args[k].longName
  {
    if args != [] {
      FirstMissingMeans(args[1..]);
      assert forall k :: 0 < k < |args| ==> args[k] == args[1..][k - 1];
      assert forall k :: 0 <= k < |args| - 1 ==> args[1..][k] == args[k + 1];
      if args[0].required && !args[0].found {
        assert IsFirstMissing(args, 0);
      } else if k :| 0 <= k < |args[1..]| && IsFirstMissing(args[1..], k)
                     && FirstMissing(args[1..]).longName == args[1..][k].longName {
        assert IsFirstMissing(args, k + 1);
      }
    }
  }

  /** A refusal names what was wrong: a token that no argument has as a name, a required argument's own name given
      without a value, or the first required argument that was never named. */
  lemma {:induction false} RefusalsNameTheFault(args: seq<Argument>, tokens: seq<string>)
    ensures var o := ParseTokens(args, tokens).outcome;
      match o
      case UnknownArgument(t) => t in tokens && forall k :: 0 <= k < |args| ==> !Names(args[k], t)
      case RequiresValue(t) => t in tokens && exists k :: 0 <= k < |args| && args[k].required && Names(args[k], t)
      case MissingRequired(name) =>
        var final := ParseTokens(args, tokens).args;
        exists k :: 0 <= k < |final| && IsFirstMissing(final, k) && final[k].longName == name
      case _ => true
    decreases |tokens|
  {
    FirstMissingMeans(args);
    if tokens != [] {
      var k := Find(args, tokens[0]);
      if k < |args| {
        var valued := |tokens| > 1 && LooksLikeValue(tokens[1]);
        var next := args[k := if valued then Given(args[k], tokens[1]) else Marked(args[k])];
        RefusalsNameTheFault(next, if valued then tokens[2..] else tokens[1..]);
        forall j, t | 0 <= j < |args| ensures Names(next[j], t) == Names(args[j], t) {
        }
        forall j | 0 <= j < |args| ensures next[j].required == args[j].required {
        }
      }
    }
  }

  // The parser reads the first assignment of a rendering as that assignment.
  lemma ParsesOneAssignment(args: seq<Argument>, x: Assignment, xs: seq<Assignment>)
    requires GoodTable(args) && WellFormed(args, [x] + xs)
    ensures Find(args, x.name) < |args|
    ensures ParseTokens(args, Rendered(x) + Render(xs)) ==
            if Refused(args, x) then State(Step(args, x), RequiresValue(x.name))
            else ParseTokens(Step(args, x), Render(xs))
  {
    var all, tokens := [x] + xs, Rendered(x) + Render(xs);
    assert all[0] == x;
    if x.value.Some? {
      assert tokens[2..] == Render(xs);
    } else {
      assert tokens[1..] == Render(xs);
      if xs != [] {
        assert all[1] == xs[0];
        var k := Find(args, xs[0].name);
        assert Dashed(args[k]) && tokens[1] == xs[0].name;
      }
    }
  }

  lemma {:induction false} ParseRendered(args: seq<Argument>, xs: seq<Assignment>)
    requires GoodTable(args) && WellFormed(args, xs)
    ensures var s := ParseTokens(args, Render(xs));
      && (s.outcome.Parsed? <==> Supplied(args, xs) && RequiredNamed(args, xs))
      && (s.outcome.RequiresValue? <==> !Supplied(args, xs))
      && (s.outcome.MissingRequired? <==> Supplied(args, xs) && !RequiredNamed(args, xs))
      && (s.outcome.Parsed? ==> Holds(args, xs, s.args))
    decreases |xs|
  {
    if xs == [] {
      FirstMissingMeans(args);
    } else {
      var x, rest := xs[0], xs[1..];
      assert xs == [x] + rest;
      ParsesOneAssignment(args, x, rest);
      SuppliedFromFront(args, x, rest);
      if !Refused(args, x) {
        assert WellFormed(args, rest);
        StepKeepsTable(args, x, rest);
        ParseRendered(Step(args, x), rest);
        RequiredFromFront(args, x, rest);
        HoldsFromFront(args, x, rest, ParseTokens(args, Render(xs)).args);
      }
    }
  }

  lemma {:induction false} SeparatorFound(argv: seq<string>, i: nat, at: nat)
    requires 1 <= i <= at < |argv| && argv[at] == "--"
    requires forall j :: i <= j < at ==> argv[j] != "--"
    ensures AfterSeparator(argv, i) == at + 1
    decreases at - i
  {
    if i < at {
      SeparatorFound(argv, i + 1, at);
    }
  }

  lemma {:induction false} SeparatorMissing(argv: seq<string>, i: nat)
    requires forall j :: i <= j < |argv| ==> argv[j] != "--"
    ensures AfterSeparator(argv, i) == |argv| + 1
    decreases |argv| - i
  {
    if i < |argv| {
      SeparatorMissing(argv, i + 1);
    }
  }

  /** The round trip: a rendered assignment list, after any program name and separator-free EAL part, is accepted exactly
      when every required argument is named and none is named bare before it has a value, and then each argument has
      the last value given to it, by long or short name, or else its default. */
  lemma CommandLineRoundTrip(args: seq<Argument>, program: string, eal: seq<string>, xs: seq<Assignment>)
    requires GoodTable(args) && WellFormed(args, xs) && "--" !in eal
    ensures var s := ParseArgv(args, [program] + eal + ["--"] + Render(xs));
      && (s.outcome.Parsed? <==> Supplied(args, xs) && RequiredNamed(args, xs))
      && (s.outcome.RequiresValue? <==> !Supplied(args, xs))
      && (s.outcome.MissingRequired? <==> Supplied(args, xs) && !RequiredNamed(args, xs))
      && (s.outcome.Parsed? ==> Holds(args, xs, s.args))
  {
    assert ParseArgv(args, [program] + eal + ["--"] + Render(xs)) == ParseTokens(args, Render(xs)) by {
      EalPartIsSkipped(args, program, eal, Render(xs));
    }
    ParseRendered(args, xs);
  }

  lemma EalPartIsSkipped(args: seq<Argument>, program: string, eal: seq<string>, tokens: seq<string>)
    requires "--" !in eal
    ensures ParseArgv(args, [program] + eal + ["--"] + tokens) == ParseTokens(args, tokens)
  {
    var argv := [program] + eal + ["--"] + tokens;
    var at := |eal| + 1;
    forall j | 1 <= j < at
      ensures argv[j] != "--"
    {
      assert argv[j] == eal[j - 1];
    }
    SeparatorFound(argv, 1, at);
    assert argv[at + 1..] == tokens;
  }

  /** Without a separator after the program name the line is refused, the table untouched, unless it is empty. */
  lemma SeparatorIsNeeded(args: seq<Argument>, argv: seq<string>)
    ensures ParseArgv(args, argv).outcome.MissingSeparator?
            <==> |argv| > 1 && forall j :: 1 <= j < |argv| ==> argv[j] != "--"
    ensures ParseArgv(args, argv).outcome.MissingSeparator? ==> ParseArgv(args, argv).args == args
  {
    if j :| 1 <= j < |argv| && argv[j] == "--" {
      var start := AfterSeparator(argv, 1);
      SeparatorBounds(argv, 1, j);
      TokensHaveSeparator(args, argv[start..]);
    } else {
      SeparatorMissing(argv, 1);
      TokensHaveSeparator(args, []);
    }
  }

  lemma {:induction false} SeparatorBounds(argv: seq<string>, i: nat, j: nat)
    requires 1 <= i <= j < |argv| && argv[j] == "--"
    ensures i < AfterSeparator(argv, i) <= j + 1
    decreases j - i
  {
    if argv[i] != "--" {
      SeparatorBounds(argv, i + 1, j);
    }
  }

  lemma {:induction false} TokensHaveSeparator(args: seq<Argument>, tokens: seq<string>)
    ensures !ParseTokens(args, tokens).outcome.MissingSeparator?
    decreases |tokens|
  {
    if tokens == [] {
      FirstMissingMeans(args);
    } else {
      var k := Find(args, tokens[0]);
      if k < |args| {
        if |tokens| > 1 && LooksLikeValue(tokens[1]) {
          TokensHaveSeparator(args[k := Given(args[k], tokens[1])], tokens[2..]);
        } else {
          TokensHaveSeparator(args[k := Marked(args[k])], tokens[1..]);
        }
      }
    }
  }

  // ---- the converse: whatever parses is a rendering ----

  function Read(tokens: seq<string>): seq<Assignment>
    decreases |tokens|
  {
    if tokens == [] then []
    else if |tokens| > 1 && LooksLikeValue(tokens[1]) then
      [Assignment(tokens[0], Some(tokens[1]))] + Read(tokens[2..])
    else [Assignment(tokens[0], None)] + Read(tokens[1..])
  }

  lemma {:induction false} RenderRead(tokens: seq<string>)
    ensures Render(Read(tokens)) == tokens
    decreases |tokens|
  {
    if tokens != [] {
      if |tokens| > 1 && LooksLikeValue(tokens[1]) {
        RenderRead(tokens[2..]);
        assert tokens == tokens[..2] + tokens[2..];
      } else {
        RenderRead(tokens[1..]);
      }
      assert Render(Read(tokens)) == Rendered(Read(tokens)[0]) + Render(Read(tokens)[1..]);
    }
  }

  lemma {:induction false} ParsedNamesAreRegistered(args: seq<Argument>, tokens: seq<string>)
    requires ParseTokens(args, tokens).outcome.Parsed?
    ensures WellFormed(args, Read(tokens))
    decreases |tokens|
  {
    if tokens != [] {
      var k := Find(args, tokens[0]);
      var valued := |tokens| > 1 && LooksLikeValue(tokens[1]);
      var next := args[k := if valued then Given(args[k], tokens[1]) else Marked(args[k])];
      var rest := if valued then tokens[2..] else tokens[1..];
      ParsedNamesAreRegistered(next, rest);
      var xs := Read(tokens);
      assert xs[1..] == Read(rest);
      forall i | 0 <= i < |xs|
        ensures Find(args, xs[i].name) < |args| && (xs[i].value.Some? ==> NoDash(xs[i].value.value))
      {
        if i > 0 {
          assert xs[i] == Read(rest)[i - 1];
          FindByNames(args, next, xs[i].name);
        }
      }
    }
  }

  /** Exactly the renderings of complete assignment lists parse, and they mean what was written. */
  lemma ParsesExactlyRenderings(args: seq<Argument>, tokens: seq<string>)
    requires GoodTable(args)
    ensures var s := ParseTokens(args, tokens);
      && (s.outcome.Parsed? <==> exists xs :: RenderingOf(args, tokens, xs))
      && forall xs :: s.outcome.Parsed? && WellFormed(args, xs) && Render(xs) == tokens ==> Holds(args, xs, s.args)
  {
    if ParseTokens(args, tokens).outcome.Parsed? {
      ParsedNamesAreRegistered(args, tokens);
      RenderRead(tokens);
      ParseRendered(args, Read(tokens));
      assert RenderingOf(args, tokens, Read(tokens));
    }
    forall xs | WellFormed(args, xs) && Render(xs) == tokens
      ensures RenderingOf(args, tokens, xs) ==> ParseTokens(args, tokens).outcome.Parsed?
      ensures ParseTokens(args, tokens).outcome.Parsed? ==> Holds(args, xs, ParseTokens(args, tokens).args)
    {
      ParseRendered(args, xs);
    }
  }

  ghost predicate RenderingOf(args: seq<Argument>, tokens: seq<string>, xs: seq<Assignment>) {
    WellFormed(args, xs) && Render(xs) == tokens && Supplied(args, xs) && RequiredNamed(args, xs)
  }

  /** Reading an argument back, by either of its names. */
  lemma GetReadsLastValue(args: seq<Argument>, xs: seq<Assignment>, final: seq<Argument>, k: nat, name: string)
    requires GoodTable(args) && Holds(args, xs, final) && k < |args| && Names(args[k], name)
    ensures Get(final, name) == LastValue(args[k], xs)
  {
    assert forall j :: 0 <= j < |args| ==> IsAssigned(args[j], xs, final[j]);
    FindByNames(args, final, name);
    FindsItsOwn(args, k, name);
  }

  lemma UnknownReadsEmpty(args: seq<Argument>, name: string)
    requires forall k :: 0 <= k < |args| ==> !Names(args[k], name)
    ensures Get(args, name) == ""
  {
  }

  // The last assignment that gives this argument a value.
  ghost predicate LastGiven(a: Argument, xs: seq<Assignment>, i: nat) {
    && i < |xs| && Names(a, xs[i].name) && xs[i].value.Some?
    && forall j :: i < j < |xs| && Names(a, xs[j].name) ==> xs[j].value.None?
  }

  ghost predicate NeverGiven(a: Argument, xs: seq<Assignment>) {
    forall i :: 0 <= i < |xs| && Names(a, xs[i].name) ==> xs[i].value.None?
  }

  lemma {:induction false} LastValueIsLastGiven(a: Argument, xs: seq<Assignment>)
    ensures NeverGiven(a, xs) ==> LastValue(a, xs) == a.value
    ensures forall i: nat :: LastGiven(a, xs, i) ==> LastValue(a, xs) == xs[i].value.value
    ensures NeverGiven(a, xs) || exists i: nat :: LastGiven(a, xs, i)
  {
    if xs != [] {
      var n := |xs| - 1;
      var init := xs[..n];
      LastValueIsLastGiven(a, init);
      if Names(a, xs[n].name) && xs[n].value.Some? {
        assert LastGiven(a, xs, n);
      } else {
        if NeverGiven(a, xs) {
          assert NeverGiven(a, init);
        }
        forall i: nat | LastGiven(a, xs, i)
          ensures LastGiven(a, init, i)
        {
          assert forall j :: i < j < n ==> init[j] == xs[j];
        }
        if i: nat :| LastGiven(a, init, i) {
          assert LastGiven(a, xs, i);
        }
      }
    }
  }
}
