/** From the command line to the data plane: which threading mode a command line selects, and what packets it costs. */
module DefaultSetup {
  import opened Common
  import opened CommandLine
  import Cmdline
  import OneThreadModes
  import PC = PacketChannel
  import TwoThreadModes
  import WS = WorkerSystem

  predicate IsModeArgument(args: seq<Argument>, k: nat) {
    k < |args| && args[k].value == "EachQ-OneThread" && Names(args[k], "--threading-mode")
  }

  /** The registered table meets the premises below at position 3. */
  lemma RegisteredModeArgument()
    ensures IsModeArgument(Cmdline.REGISTERED, 3)
  {
    assert Cmdline.REGISTERED[3].longName == "--threading-mode";
  }

  function SelectedMode(args: seq<Argument>, argv: seq<string>): Option<ThreadMode> {
    StringToThreadMode(Get(ParseArgv(args, argv).args, "--threading-mode"))
  }

  lemma ModeOfLine(args: seq<Argument>, program: string, eal: seq<string>, xs: seq<Assignment>, k: nat)
    requires GoodTable(args) && Cmdline.NothingRequired(args) && WellFormed(args, xs) && "--" !in eal
    requires IsModeArgument(args, k)
    ensures SelectedMode(args, Cmdline.Line(program, eal, xs)) == StringToThreadMode(LastValue(args[k], xs))
  {
    Cmdline.OptionalLineParses(args, program, eal, xs);
    var final := ParseArgv(args, Cmdline.Line(program, eal, xs)).args;
    GetReadsLastValue(args, xs, final, k, "--threading-mode");
  }

  const TWO_THREAD_NAMES: set<string> := {"EachQ-TwoThread", "AllQ-TwoThread"}

  lemma TwoThreadByName(name: string)
    requires StringToThreadMode(name).Some?
    ensures !OneThread(StringToThreadMode(name).value) <==> name in TWO_THREAD_NAMES
  {
    assert "EachQ-TwoThread"[6] != "EachQ-OneThread"[6] && "AllQ-TwoThread"[5] != "AllQ-OneThread"[5];
    assert "EachQ-TwoThread"[0] != "AllQ-TwoThread"[0] && "EachQ-OneThread"[0] != "AllQ-TwoThread"[0];
  }

  /** A command line that never gives --threading-mode a value gets one thread per pair of queues, and with the sizes
      deployed, whatever the guests do, no ring holds more than a burst, no enqueue waits and nothing is drained. */
  lemma DefaultLosesNothingElse(args: seq<Argument>, program: string, eal: seq<string>, xs: seq<Assignment>, k: nat,
                                n: nat, s: WS.Sys, i: nat)
    requires GoodTable(args) && Cmdline.NothingRequired(args) && WellFormed(args, xs) && "--" !in eal
    requires IsModeArgument(args, k) && NeverGiven(args[k], xs)
    requires i < n && WS.Reachable(WS.SetupFor(PC.DEPLOYED, EachQOneThread, n), s)
    ensures SelectedMode(args, Cmdline.Line(program, eal, xs)) == Some(EachQOneThread)
    ensures i < |s.chans| && |s.chans[i].ring| <= PKT_BURST_SZ && !PC.Waits(PC.DEPLOYED, s.chans[i])
    ensures s.chans[i].log.drained == []
  {
    ModeOfLine(args, program, eal, xs, k);
    LastValueIsLastGiven(args[k], xs);
    TwoThreadByName("EachQ-OneThread");
    OneThreadModes.OneThreadModesLoseNothingElse(PC.DEPLOYED, EachQOneThread, n, s, i);
  }

  /** With a command line that selects a mode at all, some run of the workers drains packets exactly when the last value
      it gives --threading-mode names one of the two-thread modes. */
  lemma LineDrainsIff(args: seq<Argument>, program: string, eal: seq<string>, xs: seq<Assignment>, k: nat, n: nat)
    requires GoodTable(args) && Cmdline.NothingRequired(args) && WellFormed(args, xs) && "--" !in eal
    requires IsModeArgument(args, k) && 0 < n && SelectedMode(args, Cmdline.Line(program, eal, xs)).Some?
    ensures var u := WS.SetupFor(PC.DEPLOYED, SelectedMode(args, Cmdline.Line(program, eal, xs)).value, n);
      (exists s :: WS.Reachable(u, s) && TwoThreadModes.SomeDrained(s))
      <==> exists i: nat :: LastGiven(args[k], xs, i) && xs[i].value.value in TWO_THREAD_NAMES
  {
    ModeOfLine(args, program, eal, xs, k);
    var name := LastValue(args[k], xs);
    TwoThreadByName(name);
    TwoThreadModes.DrainLosesIffTwoThread(PC.DEPLOYED, StringToThreadMode(name).value, n);
    LastValueIsLastGiven(args[k], xs);
    assert "EachQ-OneThread" !in TWO_THREAD_NAMES by { TwoThreadByName("EachQ-OneThread"); }
  }
}
