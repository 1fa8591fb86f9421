/**
 * The action runner's view of the command chain (dedup.go, printEvent):
 * every command string is cut at single spaces into a program name and its
 * arguments, and the chain runs in order until the first command that fails.
 */
module Commands {

  /** One child-process launch: the program to start and its argument vector. */
  datatype Invocation = Invocation(program: string, args: seq<string>)

  /**
   * Cuts s at every single space, as Go's strings.Split(s, " ") does:
   * two adjacent spaces give an empty piece, and the empty string gives one
   * empty piece. No piece contains a space.
   */
  function Split(s: string): (parts: seq<string>)
    ensures |parts| >= 1
    ensures forall i :: 0 <= i < |parts| ==> ' ' !in parts[i]
    decreases |s|
  {
    if |s| == 0 then [""]
    else
      var rest := Split(s[1..]);
      if s[0] == ' ' then [""] + rest
      else [[s[0]] + rest[0]] + rest[1..]
  }

  /** The pieces glued back together with one space between neighbours. */
  function Join(parts: seq<string>): (s: string)
    requires |parts| >= 1
  {
    if |parts| == 1 then parts[0] else parts[0] + " " + Join(parts[1..])
  }

  /** Joining the pieces of a split gives back the string that was split. */
  lemma {:induction false} JoinSplit(s: string)
    ensures Join(Split(s)) == s
    decreases |s|
  {
    if |s| > 0 {
      var rest := Split(s[1..]);
      JoinSplit(s[1..]);
      if s[0] == ' ' {
        assert Split(s) == [""] + rest;
        assert ([""] + rest)[1..] == rest;
        assert s == [' '] + s[1..];
      } else {
        var parts := [[s[0]] + rest[0]] + rest[1..];
        assert Split(s) == parts;
        if |rest| == 1 {
          assert Join(parts) == [s[0]] + rest[0];
        } else {
          assert parts[1..] == rest[1..];
          assert Join(parts) == [s[0]] + rest[0] + " " + Join(rest[1..]);
        }
        assert s == [s[0]] + s[1..];
      }
    }
  }

  /** A leading piece without spaces stays glued to the first piece of what follows it. */
  lemma {:induction false} SplitPrefix(w: string, s: string)
    requires ' ' !in w
    ensures Split(w + s) == [w + Split(s)[0]] + Split(s)[1..]
    decreases |w|
  {
    if |w| > 0 {
      SplitPrefix(w[1..], s);
      assert (w + s)[1..] == w[1..] + s;
      assert (w + s)[0] == w[0] && w[0] != ' ';
      var rest := Split(w[1..] + s);
      assert Split(w + s) == [[w[0]] + rest[0]] + rest[1..];
      assert [w[0]] + (w[1..] + Split(s)[0]) == w + Split(s)[0];
    } else {
      assert w == "" && w + s == s && w + Split(s)[0] == Split(s)[0];
      assert [Split(s)[0]] + Split(s)[1..] == Split(s);
    }
  }

  /** Splitting a join of space-free pieces gives back the pieces. */
  lemma {:induction false} SplitJoin(parts: seq<string>)
    requires |parts| >= 1
    requires forall i :: 0 <= i < |parts| ==> ' ' !in parts[i]
    ensures Split(Join(parts)) == parts
    decreases |parts|
  {
    if |parts| == 1 {
      SplitPrefix(parts[0], "");
      assert parts[0] + "" == parts[0];
      assert Split("") == [""];
    } else {
      var tail := Join(parts[1..]);
      SplitJoin(parts[1..]);
      SplitPrefix(parts[0], " " + tail);
      assert (" " + tail)[0] == ' ' && (" " + tail)[1..] == tail;
      assert Split(" " + tail) == [""] + parts[1..];
      assert Join(parts) == parts[0] + (" " + tail);
      assert parts[0] + "" == parts[0];
      assert parts == [parts[0]] + parts[1..];
    }
  }

  /**
   * The launch a command string stands for: the text before its first single
   * space is the program, the remaining single-space pieces are its arguments.
   */
  function SplitCommand(r: string): (inv: Invocation)
    ensures ' ' !in inv.program
    ensures forall i :: 0 <= i < |inv.args| ==> ' ' !in inv.args[i]
    ensures Join([inv.program] + inv.args) == r
  {
    var parts := Split(r);
    JoinSplit(r);
    assert [parts[0]] + parts[1..] == parts;
    Invocation(parts[0], parts[1..])
  }

  /** A program name and arguments without spaces, joined into one command string, split back into themselves. */
  lemma CommandRoundTrip(program: string, args: seq<string>)
    requires ' ' !in program
    requires forall i :: 0 <= i < |args| ==> ' ' !in args[i]
    ensures SplitCommand(Join([program] + args)) == Invocation(program, args)
  {
    var parts := [program] + args;
    SplitJoin(parts);
    assert parts[1..] == args;
  }

  /**
   * How many commands of a chain run when command i would succeed exactly
   * when outcomes[i] holds: every one up to and including the first failure,
   * or all of them when none fails.
   */
  function ExecutedCount(outcomes: seq<bool>): (n: nat)
    ensures n <= |outcomes|
    ensures forall i :: 0 <= i < n - 1 ==> outcomes[i]
    ensures n < |outcomes| ==> 0 < n && !outcomes[n - 1]
  {
    if |outcomes| == 0 then 0
    else if !outcomes[0] then 1
    else 1 + ExecutedCount(outcomes[1..])
  }

  /** The three facts above pin the count down: no other length is a prefix up to the first failure. */
  lemma ExecutedCountUnique(outcomes: seq<bool>, m: nat)
    requires m <= |outcomes|
    requires forall i :: 0 <= i < m - 1 ==> outcomes[i]
    requires m < |outcomes| ==> 0 < m && !outcomes[m - 1]
    ensures m == ExecutedCount(outcomes)
  {
  }

  /**
   * With the first failure at index f the chain stops right after launching
   * command f; with no failure every command is launched.
   */
  lemma ExecutedUpToFirstFailure(outcomes: seq<bool>, f: nat)
    requires f <= |outcomes|
    requires forall i :: 0 <= i < f ==> outcomes[i]
    requires f < |outcomes| ==> !outcomes[f]
    ensures ExecutedCount(outcomes) == if f < |outcomes| then f + 1 else |outcomes|
  {
  }

  /**
   * Two chains: with [A, B, C] where A succeeds and B fails, A and B run and
   * C does not; with ["false", "echo never"] only the first runs.
   */
  lemma ShortCircuitExamples()
    ensures ExecutedCount([true, false, true]) == 2
    ensures ExecutedCount([false, true]) == 1
    ensures SplitCommand("echo never") == Invocation("echo", ["never"])
  {
    CommandRoundTrip("echo", ["never"]);
    assert Join(["echo"] + ["never"]) == "echo never";
  }

  /**
   * Runs the chain as printEvent does: a `good` flag starts true, each command
   * is split and launched only while the flag holds, and a failed launch
   * clears it. `outcomes[i]` is whether command i succeeds if it is launched.
   * Returns the launches made, in order, and the final flag.
   */
  method RunChain(chain: seq<string>, outcomes: seq<bool>) returns (ran: seq<Invocation>, good: bool)
    requires |outcomes| == |chain|
    ensures |ran| == ExecutedCount(outcomes)
    ensures forall i :: 0 <= i < |ran| ==> ran[i] == SplitCommand(chain[i])
    ensures good <==> forall i :: 0 <= i < |chain| ==> outcomes[i]
  {
    ran := [];
    good := true;
    for k := 0 to |chain|
      invariant |ran| <= k
      invariant forall i :: 0 <= i < |ran| ==> ran[i] == SplitCommand(chain[i])
      invariant forall i :: 0 <= i < |ran| - 1 ==> outcomes[i]
      invariant good <==> |ran| == k && forall i :: 0 <= i < k ==> outcomes[i]
      invariant !good ==> 0 < |ran| && !outcomes[|ran| - 1]
    {
      if good {
        ran := ran + [SplitCommand(chain[k])];
        if !outcomes[k] {
          good := false;
        }
      }
    }
    ExecutedCountUnique(outcomes, |ran|);
  }
}
