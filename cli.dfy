/**
 * The entry point of main.go: show the usage text when there are no
 * arguments or when a help token appears anywhere, otherwise hand the
 * arguments (without the program name) to dedup; and how the process ends.
 */
module Cli {
  import opened Dedup

  /** What main does with os.Args before anything else. */
  datatype Decision = Help | Forward(args: seq<string>)

  /** The four exact spellings that ask for help. */
  predicate IsHelpToken(s: string)
  {
    s == "help" || s == "-h" || s == "-help" || s == "--help"
  }

  /** Whether any argument is a help token (main's search loop). */
  function HasHelpToken(args: seq<string>): (r: bool)
    ensures r <==> exists i :: 0 <= i < |args| && IsHelpToken(args[i])
  {
    if |args| == 0 then false
    else if IsHelpToken(args[0]) then true
    else
      var r := HasHelpToken(args[1..]);
      assert forall i :: 1 <= i < |args| ==> args[i] == args[1..][i - 1];
      r
  }

  /**
   * main's decision over os.Args (whose first element is the program name):
   * help when it is alone or when any later element is a help token;
   * otherwise forward everything after the program name, unchanged.
   */
  function Dispatch(osArgs: seq<string>): (d: Decision)
    requires |osArgs| >= 1
    ensures d.Help? <==> |osArgs| == 1 || exists i :: 1 <= i < |osArgs| && IsHelpToken(osArgs[i])
    ensures d.Forward? ==> d.args == osArgs[1..] && |d.args| == |osArgs| - 1
    ensures d.Forward? ==> forall i :: 0 <= i < |d.args| ==> !IsHelpToken(d.args[i])
  {
    if |osArgs| == 1 then Help
    else if HasHelpToken(osArgs[1..]) then
      assert exists i :: 1 <= i < |osArgs| && IsHelpToken(osArgs[i]) by {
        var j :| 0 <= j < |osArgs[1..]| && IsHelpToken(osArgs[1..][j]);
        assert osArgs[j + 1] == osArgs[1..][j];
      }
      Help
    else
      assert forall i :: 1 <= i < |osArgs| ==> osArgs[i] == osArgs[1..][i - 1];
      Forward(osArgs[1..])
  }

  /** Only exact matches ask for help: near misses are ordinary arguments. */
  lemma HelpTokensExact()
    ensures IsHelpToken("help") && IsHelpToken("-h") && IsHelpToken("-help") && IsHelpToken("--help")
    ensures !IsHelpToken("--h") && !IsHelpToken("-helpme") && !IsHelpToken("HELP") && !IsHelpToken("")
  {
  }

  /** How the process ends up. */
  datatype Termination =
    | ShowHelp                  // help(): usage on standard output
    | UsageError(fault: Fault)  // exit(): message and usage on standard error
    | IndexPanic(flag: string)  // a trailing `-d` or `-r` indexes past the arguments
    | Watching(config: Config)  // watching; the process blocks until interrupted

  /** The process exit status, or None while it keeps watching. */
  function ExitCode(t: Termination): (c: Option<nat>)
    ensures c == Some(0) <==> t.ShowHelp?
    ensures c.None? <==> t.Watching?
    ensures t.UsageError? ==> c == Some(1)
    ensures t.IndexPanic? ==> c == Some(2)
  {
    match t
    case ShowHelp => Some(0)
    case UsageError(_) => Some(1)
    case IndexPanic(_) => Some(2)  // the Go runtime's status for an unrecovered panic
    case Watching(_) => None
  }

  /**
   * The whole program: main's decision followed, when it forwards, by
   * dedup's scan. Help comes first; a trailing flag panics; every other
   * fault of the scan is a usage error; otherwise the process watches.
   */
  function Program(osArgs: seq<string>, watchable: set<string>): (t: Termination)
    requires |osArgs| >= 1
    ensures t == ShowHelp <==> Dispatch(osArgs) == Help
    ensures t.IndexPanic? ==> |osArgs| >= 5 && t.flag == osArgs[|osArgs| - 1]
    ensures t.IndexPanic? ==> ScanArgs(osArgs[1..], watchable) == Rejected(MissingOperand(t.flag))
    ensures t.UsageError? ==> ScanArgs(osArgs[1..], watchable) == Rejected(t.fault) && !t.fault.MissingOperand?
    ensures t.Watching? ==> ScanArgs(osArgs[1..], watchable) == Scanned(t.config)
    ensures Dispatch(osArgs).Forward? && ScanArgs(osArgs[1..], watchable).Scanned? ==>
              t == Watching(ScanArgs(osArgs[1..], watchable).config)
    ensures Dispatch(osArgs).Forward? && ScanArgs(osArgs[1..], watchable).Rejected? ==> t != ShowHelp && !t.Watching?
  {
    match Dispatch(osArgs)
    case Help => ShowHelp
    case Forward(args) =>
      match ScanArgs(args, watchable)
      case Scanned(config) => Watching(config)
      case Rejected(MissingOperand(flag)) => IndexPanic(flag)
      case Rejected(fault) => UsageError(fault)
  }

  /**
   * Help wins over everything and exits 0, and only help exits 0; a usage
   * error exits 1; without help, fewer than four forwarded arguments is
   * the usage error for too few arguments; a program that keeps watching
   * runs with the configuration scanned from os.Args minus the program name;
   * and with no help token, at least four forwarded arguments and no fault
   * at any position, the process keeps watching the `-d` operands with the
   * `-r` operands as its chain and never exits.
   */
  lemma ProgramOutcome(osArgs: seq<string>, watchable: set<string>)
    requires |osArgs| >= 1
    ensures Program(osArgs, watchable) == ShowHelp <==>
              |osArgs| == 1 || exists i :: 1 <= i < |osArgs| && IsHelpToken(osArgs[i])
    ensures ExitCode(Program(osArgs, watchable)) == Some(0) <==> Program(osArgs, watchable) == ShowHelp
    ensures Program(osArgs, watchable).UsageError? ==> ExitCode(Program(osArgs, watchable)) == Some(1)
    ensures Program(osArgs, watchable) != ShowHelp && |osArgs| < 5 ==>
              Program(osArgs, watchable) == UsageError(TooFewArguments)
    ensures Program(osArgs, watchable).Watching? ==>
              ScanArgs(osArgs[1..], watchable) == Scanned(Program(osArgs, watchable).config)
    ensures && |osArgs| >= 5
            && (forall i :: 1 <= i < |osArgs| ==> !IsHelpToken(osArgs[i]))
            && (forall k :: 0 <= k < |osArgs| - 1 ==> FaultAt(osArgs[1..], watchable, k).None?)
            ==> && Program(osArgs, watchable) == Watching(Config(Operands(osArgs[1..], "-d"), Operands(osArgs[1..], "-r")))
                && ExitCode(Program(osArgs, watchable)) == None
  {
    var d := Dispatch(osArgs);
    if d.Forward? {
      ScanOutcome(d.args, watchable);
    }
  }

  /**
   * A `-d` whose operand the watcher refuses, with no help token and no
   * earlier fault, ends the program through exit(): the usage error for the
   * refused `-d` operand, with exit status 1.
   */
  lemma UnwatchablePathExits(osArgs: seq<string>, watchable: set<string>, k: nat)
    requires |osArgs| >= 5
    requires forall i :: 1 <= i < |osArgs| ==> !IsHelpToken(osArgs[i])
    requires k + 2 < |osArgs| && osArgs[k + 1] == "-d" && osArgs[k + 2] !in watchable
    requires forall j :: 0 <= j < k ==> FaultAt(osArgs[1..], watchable, j).None?
    ensures Program(osArgs, watchable) == UsageError(Unwatchable(osArgs[k + 2]))
    ensures ExitCode(Program(osArgs, watchable)) == Some(1)
  {
    var args := osArgs[1..];
    assert args[k] == "-d" && args[k + 1] == osArgs[k + 2];
    FirstFaultAt(args, watchable, k);
  }

  /**
   * A `-d` or `-r` as the last argument, with no help token and no earlier
   * fault, indexes past the end of the arguments: the process panics with
   * exit status 2 instead of printing the usage error.
   */
  lemma TrailingFlagPanics(osArgs: seq<string>, watchable: set<string>)
    requires |osArgs| >= 5
    requires forall i :: 1 <= i < |osArgs| ==> !IsHelpToken(osArgs[i])
    requires osArgs[|osArgs| - 1] == "-d" || osArgs[|osArgs| - 1] == "-r"
    requires forall j :: 0 <= j < |osArgs| - 2 ==> FaultAt(osArgs[1..], watchable, j).None?
    ensures Program(osArgs, watchable) == IndexPanic(osArgs[|osArgs| - 1])
    ensures ExitCode(Program(osArgs, watchable)) == Some(2)
  {
    var args := osArgs[1..];
    var last := |args| - 1;
    assert args[last] == osArgs[|osArgs| - 1];
    FirstFaultAt(args, watchable, last);
  }
}
