/**
 * The process state of dedup.go: the argument scan that registers watched
 * paths and builds the global command chain (dedup), the event step on the
 * debounce table (dedupLoop) and the fired action (printEvent).
 */
module Dedup {
  import opened Debounce
  import opened Commands

  datatype Option<+T> = None | Some(value: T)

  /** Why the argument scan stops the process. */
  datatype Fault =
    | TooFewArguments          // fewer than four arguments: usage error
    | MissingOperand(flag: string)  // `-d` or `-r` as the last argument: index out of range
    | Unwatchable(path: string)     // the watcher refused to add this `-d` operand (the message itself quotes only "-d")

  /** What a successful scan leaves behind: the watched paths and the command chain, each in argument order. */
  datatype Config = Config(paths: seq<string>, commands: seq<string>)

  datatype Scan = Scanned(config: Config) | Rejected(fault: Fault)

  /** The token after every occurrence of flag that has a following token, in argument order. */
  function Operands(args: seq<string>, flag: string): (ops: seq<string>)
  {
    if |args| < 2 then []
    else (if args[0] == flag then [args[1]] else []) + Operands(args[1..], flag)
  }

  /** The same, restricted to occurrences at positions below n: what the scan has collected after n steps. */
  function OperandsBefore(args: seq<string>, flag: string, n: nat): (ops: seq<string>)
    requires n <= |args|
  {
    if n == 0 then []
    else OperandsBefore(args, flag, n - 1) + (if args[n - 1] == flag && n < |args| then [args[n]] else [])
  }

  /** The scan's running collection, completed by the operands still ahead, is the whole list of operands. */
  lemma {:induction false} OperandsSplitAt(args: seq<string>, flag: string, n: nat)
    requires n <= |args|
    ensures OperandsBefore(args, flag, n) + Operands(args[n..], flag) == Operands(args, flag)
    decreases n
  {
    if n == 0 {
      assert args[0..] == args;
    } else {
      OperandsSplitAt(args, flag, n - 1);
      var rest := args[n - 1..];
      assert rest[1..] == args[n..];
      if n < |args| {
        assert Operands(rest, flag) == (if args[n - 1] == flag then [args[n]] else []) + Operands(args[n..], flag);
      } else {
        assert Operands(rest, flag) == [] && Operands(args[n..], flag) == [];
      }
    }
  }

  /** After a full pass the scan has collected exactly the operands of the flag. */
  lemma OperandsComplete(args: seq<string>, flag: string)
    ensures OperandsBefore(args, flag, |args|) == Operands(args, flag)
  {
    OperandsSplitAt(args, flag, |args|);
    assert Operands(args[|args|..], flag) == [];
  }

  /** A token is an operand of flag exactly when it directly follows an occurrence of flag. */
  lemma {:induction false} OperandsMembership(args: seq<string>, flag: string, x: string)
    ensures x in Operands(args, flag) <==> exists k :: 0 <= k < |args| - 1 && args[k] == flag && args[k + 1] == x
    decreases |args|
  {
    if |args| >= 2 {
      OperandsMembership(args[1..], flag, x);
      if x in Operands(args[1..], flag) {
        var k :| 0 <= k < |args| - 2 && args[1..][k] == flag && args[1..][k + 1] == x;
        assert args[k + 1] == flag && args[k + 2] == x;
      }
      if exists k :: 0 <= k < |args| - 1 && args[k] == flag && args[k + 1] == x {
        var k :| 0 <= k < |args| - 1 && args[k] == flag && args[k + 1] == x;
        if k > 0 {
          assert args[1..][k - 1] == flag && args[1..][k] == x;
        }
      }
    }
  }

  /**
   * What goes wrong at position k of the scan, if anything: `-d` needs a
   * following token the watcher accepts, `-r` needs a following token.
   */
  function FaultAt(args: seq<string>, watchable: set<string>, k: nat): (f: Option<Fault>)
    requires k < |args|
    ensures f.Some? ==> args[k] == "-d" || args[k] == "-r"
    ensures f.Some? && f.value.MissingOperand? ==> k == |args| - 1 && f.value.flag == args[k]
    ensures args[k] == "-r" && k + 1 < |args| ==> f.None?
    ensures args[k] == "-d" && k + 1 < |args| ==> (f.None? <==> args[k + 1] in watchable)
  {
    if args[k] == "-d" then
      if k + 1 == |args| then Some(MissingOperand("-d"))
      else if args[k + 1] !in watchable then Some(Unwatchable(args[k + 1]))
      else None
    else if args[k] == "-r" && k + 1 == |args| then Some(MissingOperand("-r"))
    else None
  }

  /** The first position at or after k where the scan stops, if any. */
  function FirstFault(args: seq<string>, watchable: set<string>, k: nat): (r: Option<nat>)
    requires k <= |args|
    ensures r.Some? ==> k <= r.value < |args| && FaultAt(args, watchable, r.value).Some?
    ensures r.Some? ==> forall j :: k <= j < r.value ==> FaultAt(args, watchable, j).None?
    ensures r.None? ==> forall j :: k <= j < |args| ==> FaultAt(args, watchable, j).None?
    decreases |args| - k
  {
    if k == |args| then None
    else if FaultAt(args, watchable, k).Some? then Some(k)
    else FirstFault(args, watchable, k + 1)
  }

  /**
   * The outcome of dedup's scan of its arguments: fewer than four is a usage
   * error; otherwise the first faulty position decides the error; otherwise
   * the operands of `-d` are watched and those of `-r` form the chain.
   */
  function ScanArgs(args: seq<string>, watchable: set<string>): (s: Scan)
    ensures |args| < 4 ==> s == Rejected(TooFewArguments)
    ensures s.Rejected? <==> |args| < 4 || exists k :: 0 <= k < |args| && FaultAt(args, watchable, k).Some?
    ensures s.Rejected? && |args| >= 4 ==>
              exists k :: && 0 <= k < |args| && FaultAt(args, watchable, k) == Some(s.fault)
                          && forall j :: 0 <= j < k ==> FaultAt(args, watchable, j).None?
  {
    if |args| < 4 then Rejected(TooFewArguments)
    else match FirstFault(args, watchable, 0)
      case Some(k) => Rejected(FaultAt(args, watchable, k).value)
      case None => Scanned(Config(Operands(args, "-d"), Operands(args, "-r")))
  }

  /**
   * What a scan promises: too few arguments is rejected before anything
   * else; a successful scan watches only paths the watcher accepts, each the
   * token after a `-d`, and chains every token after a `-r`.
   */
  lemma ScanOutcome(args: seq<string>, watchable: set<string>)
    ensures |args| < 4 ==> ScanArgs(args, watchable) == Rejected(TooFewArguments)
    ensures ScanArgs(args, watchable).Scanned? <==>
              |args| >= 4 && forall k :: 0 <= k < |args| ==> FaultAt(args, watchable, k).None?
    ensures ScanArgs(args, watchable).Scanned? ==>
              && ScanArgs(args, watchable).config.commands == Operands(args, "-r")
              && ScanArgs(args, watchable).config.paths == Operands(args, "-d")
              && forall x :: x in ScanArgs(args, watchable).config.paths ==> x in watchable
  {
    var s := ScanArgs(args, watchable);
    if s.Scanned? {
      forall x | x in s.config.paths
        ensures x in watchable
      {
        OperandsMembership(args, "-d", x);
        var k :| 0 <= k < |args| - 1 && args[k] == "-d" && args[k + 1] == x;
        assert FaultAt(args, watchable, k).None?;
      }
    }
  }

  /** A fault at k with none before it is the first fault. */
  lemma FirstFaultAt(args: seq<string>, watchable: set<string>, k: nat)
    requires k < |args| && FaultAt(args, watchable, k).Some?
    requires forall j :: 0 <= j < k ==> FaultAt(args, watchable, j).None?
    ensures FirstFault(args, watchable, 0) == Some(k)
  {
  }

  /** A `-d` or `-r` as the last argument always stops the scan (unless an earlier fault already did). */
  lemma TrailingFlagRejected(args: seq<string>, watchable: set<string>)
    requires |args| >= 4 && (args[|args| - 1] == "-d" || args[|args| - 1] == "-r")
    ensures ScanArgs(args, watchable).Rejected?
  {
    assert FaultAt(args, watchable, |args| - 1).Some?;
  }

  /**
   * The converse: with enough arguments, no trailing `-d` or `-r`, and every
   * `-d` operand accepted by the watcher, the scan succeeds, watching the
   * `-d` operands and chaining the `-r` operands.
   */
  lemma ScanAccepts(args: seq<string>, watchable: set<string>)
    requires |args| >= 4
    requires args[|args| - 1] != "-d" && args[|args| - 1] != "-r"
    requires forall x :: x in Operands(args, "-d") ==> x in watchable
    ensures ScanArgs(args, watchable) == Scanned(Config(Operands(args, "-d"), Operands(args, "-r")))
  {
    forall k | 0 <= k < |args|
      ensures FaultAt(args, watchable, k).None?
    {
      if args[k] == "-d" {
        OperandsMembership(args, "-d", args[k + 1]);
      }
    }
    ScanOutcome(args, watchable);
  }

  /**
   * The scan does not skip the token it has just consumed: a `-d` used as
   * the operand of `-r` is recorded as a command and also registers the
   * token after it as a watched path.
   */
  lemma ScanDoesNotSkipOperands()
    ensures ScanArgs(["-d", ".", "-r", "-d", "x"], {".", "x"}) == Scanned(Config([".", "x"], ["-d"]))
  {
    var args := ["-d", ".", "-r", "-d", "x"];
    var w := {".", "x"};
    assert FaultAt(args, w, 0).None? && FaultAt(args, w, 1).None? && FaultAt(args, w, 2).None?;
    assert FaultAt(args, w, 3).None? && FaultAt(args, w, 4).None?;
    assert FirstFault(args, w, 0) == None;
    assert args[1..] == [".", "-r", "-d", "x"] && args[1..][1..] == ["-r", "-d", "x"];
    assert args[1..][1..][1..] == ["-d", "x"] && args[1..][1..][1..][1..] == ["x"];
    assert Operands(["-d", "x"], "-d") == ["x"] && Operands(["-d", "x"], "-r") == [];
    assert Operands(["-r", "-d", "x"], "-d") == ["x"] && Operands(["-r", "-d", "x"], "-r") == ["-d"];
    assert Operands([".", "-r", "-d", "x"], "-d") == ["x"] && Operands([".", "-r", "-d", "x"], "-r") == ["-d"];
    assert Operands(args, "-d") == [".", "x"] && Operands(args, "-r") == ["-d"];
  }

  /**
   * The running process: the paths registered with the watcher, the global
   * command chain, and the debounce table. Every entry of the table is keyed
   * by the path of the relevant event it captured.
   */
  class Engine {
    var watched: seq<string>
    var runCommands: seq<string>
    var timers: Table

    ghost predicate Valid()
      reads this
      ensures Valid() ==> forall p, q :: p in timers && q in timers && p != q ==>
                            timers[p].event.name != timers[q].event.name
    {
      forall p :: p in timers ==> timers[p].event.name == p && Relevant(timers[p].event)
    }

    /** The state at process start: nothing watched, an empty chain and an empty table. */
    constructor ()
      ensures Valid()
      ensures watched == [] && runCommands == [] && timers == map[]
    {
      watched := [];
      runCommands := [];
      timers := map[];
    }

    /**
     * dedup's scan of its arguments. Returns the scan's outcome; on success
     * the watched paths and the chain are exactly the configuration, and
     * with too few arguments nothing is registered or recorded. A scan
     * stopped at position k keeps what positions before k registered (the
     * process then ends).
     */
    method Configure(args: seq<string>, watchable: set<string>) returns (s: Scan)
      requires watched == [] && runCommands == []
      modifies this`watched, this`runCommands
      ensures s == ScanArgs(args, watchable)
      ensures s.Scanned? ==> watched == s.config.paths && runCommands == s.config.commands
      ensures |args| < 4 ==> watched == [] && runCommands == []
      ensures |args| >= 4 && s.Rejected? ==>
                var k := FirstFault(args, watchable, 0).value;
                watched == OperandsBefore(args, "-d", k) && runCommands == OperandsBefore(args, "-r", k)
    {
      if |args| < 4 {
        return Rejected(TooFewArguments);
      }
      var k := 0;
      while k < |args|
        invariant 0 <= k <= |args|
        invariant forall j :: 0 <= j < k ==> FaultAt(args, watchable, j).None?
        invariant watched == OperandsBefore(args, "-d", k)
        invariant runCommands == OperandsBefore(args, "-r", k)
      {
        var p := args[k];
        if p == "-d" {
          if k + 1 == |args| {
            FirstFaultAt(args, watchable, k);
            return Rejected(MissingOperand("-d"));
          }
          if args[k + 1] !in watchable {
            FirstFaultAt(args, watchable, k);
            return Rejected(Unwatchable(args[k + 1]));
          }
          watched := watched + [args[k + 1]];
        }
        if p == "-r" {
          if k + 1 == |args| {
            FirstFaultAt(args, watchable, k);
            return Rejected(MissingOperand("-r"));
          }
          runCommands := runCommands + [args[k + 1]];
        }
        k := k + 1;
      }
      OperandsComplete(args, "-d");
      OperandsComplete(args, "-r");
      s := Scanned(Config(watched, runCommands));
    }

    /**
     * One event from the watcher's stream at logical time now: the table
     * becomes Observe(old table, e, now), and nothing else changes.
     * Observe is this step's specification; the method is the imperative
     * get-or-create followed by the reset.
     */
    method OnEvent(e: Event, now: nat)
      requires Valid()
      modifies this`timers
      ensures Valid()
      ensures timers == Observe(old(timers), e, now)
    {
      if !Relevant(e) {
        return;
      }
      if e.name in timers {
        timers := timers[e.name := timers[e.name].(deadline := now + WaitFor)];
      } else {
        timers := timers[e.name := PendingTimer(now + WaitFor, e)];
      }
    }

    /**
     * The timer of path fires at time now: it reports the event captured
     * when the timer was created, runs the chain up to and including the
     * first failure (`outcomes[i]` is whether command i succeeds), and then
     * removes the path's entry whatever the chain's outcome.
     */
    method Fire(path: string, now: nat, outcomes: seq<bool>) returns (fired: Event, ran: seq<Invocation>, good: bool)
      requires Valid() && Due(timers, path, now)
      requires |outcomes| == |runCommands|
      modifies this`timers
      ensures Valid()
      ensures fired == old(timers)[path].event && fired.name == path
      ensures |ran| == ExecutedCount(outcomes)
      ensures forall i :: 0 <= i < |ran| ==> ran[i] == SplitCommand(runCommands[i])
      ensures good <==> forall i :: 0 <= i < |outcomes| ==> outcomes[i]
      ensures timers == Expire(old(timers), path)
    {
      fired := timers[path].event;
      ran, good := RunChain(runCommands, outcomes);
      timers := timers - {fired.name};
    }
  }
}
