# war: a debounced file watcher, modelled in Dafny

`war` watches filesystem paths and, once a burst of create/write activity
on a path has been quiet for 250 ms, runs an ordered chain of commands,
stopping at the first command that fails. This project models its core as a
sequential state machine over a logical clock counted in milliseconds:

- `commands.dfy` (module `Commands`): cutting a command string at single
  spaces into a program and its arguments, and running the chain with the
  `good` flag that skips every command after the first failure.
- `debounce.dfy` (module `Debounce`): the debounce table (path to pending
  timer), the event step that drops irrelevant events and creates or re-arms
  a path's timer, firing and entry removal, and the stream-level properties:
  ignored streams change nothing, paths are independent, and a burst
  coalesces into one firing that reports the burst's first event.
- `dedup.dfy` (module `Dedup`): the scan of `dedup`'s arguments (`-d` paths
  and `-r` commands) as a specification function, and the class `Engine`
  holding the process state (watched paths, the global command chain, the
  timer table) with methods for the scan, the event step and a firing.
- `cli.dfy` (module `Cli`): `main`'s decision (help or forward), the help
  token search, and how the process ends with its exit status.

Time is a natural number of milliseconds. A firing is one atomic step that
may happen only once its path's deadline has passed. Command outcomes are an
input sequence: `outcomes[i]` says whether command `i` succeeds if launched.
The watcher's acceptance of a path is the input set `watchable`.

Where the code and its usage text differ, the model follows the code:
- The usage message asks for at least one `-d` path, but `dedup` only checks
  that there are at least four arguments. Four arguments without any `-d`
  are accepted and nothing is watched.
- The scan does not skip the token it has just used. In
  `-r -d x`, `-d` becomes a command and `x` also becomes a watched path
  (`Dedup.ScanDoesNotSkipOperands`).
- A `-d` or `-r` as the last argument indexes past the end of the list.
  This is a Go runtime panic (exit status 2), not a usage error.

## Model

| member | source | states |
|---|---|---|
| `Commands.Split` | dedup.go:73 | cutting at single spaces gives at least one piece and no piece contains a space |
| `Commands.JoinSplit` | dedup.go:73 | joining the pieces with single spaces gives back the command string |
| `Commands.SplitJoin` | dedup.go:73 | splitting a join of space-free pieces gives back those pieces |
| `Commands.SplitCommand` | dedup.go:73 | the program and arguments are space-free, and program plus arguments joined by spaces reconstruct the command |
| `Commands.CommandRoundTrip` | dedup.go:73 | a space-free program and arguments joined into one string split back into the same invocation |
| `Commands.ExecutedCount` | dedup.go:70-82 | the number of commands launched: all before it succeeded, and fewer than the whole chain only if the last launched one failed |
| `Commands.ExecutedUpToFirstFailure` | dedup.go:70-82 | with the first failure at f exactly f + 1 commands run; with no failure all of them run |
| `Commands.ShortCircuitExamples` | dedup.go:70-82 | [A, B, C] with B failing runs A and B only; ["false", "echo never"] runs only "false" |
| `Commands.RunChain` | dedup.go:70-82 | the launches are the chain's commands split, in order, up to and including the first failure; the final flag is true iff every command succeeds |
| `Debounce.Relevant` | dedup.go:105-109 | a notification is acted upon exactly when it carries some kind other than remove, rename and permission change (so a create-only or write-only one is kept); an empty or remove/rename/chmod-only one is dropped |
| `Debounce.Due` | dedup.go:126-127 | a path can fire only if it has an entry, and not before that entry's deadline |
| `Debounce.DueStaysDue` | dedup.go:126-127 | while the table does not change, a due timer stays due at every later time |
| `Debounce.Observe` | dedup.go:105-127 | irrelevant events leave the table unchanged; a relevant event on P gives P a deadline of now + 250, keeps the captured event of an existing timer or captures this event for a new one, adds an entry only when P had none, and leaves every other path's entry as it was |
| `Debounce.Expire` | dedup.go:85-87 | the fired path's entry is gone and every other entry is unchanged |
| `Debounce.ExpiredNeverDue` | dedup.go:84-87 | after removal the path cannot fire again at any time without a new event |
| `Debounce.ExpireRearms` | dedup.go:111-124 | after removal, the next relevant event on the path creates a fresh timer capturing that new event |
| `Debounce.IgnoredStreamChangesNothing` | dedup.go:105-109 | a stream of only non-create, non-write events leaves the table exactly as it was |
| `Debounce.OtherPathsUntouched` | dedup.go:111-127 | a stream without events on Q never adds, removes or changes Q's entry |
| `Debounce.BurstPrefix` | dedup.go:116-127 | after the first k events of a burst the timer is due 250 ms after event k and reports the burst's first event |
| `Debounce.BurstCoalesces` | dedup.go:111-127 | a burst with gaps under 250 ms adds exactly one entry, is not due at any moment up to and including the arrival of the next event, becomes due exactly at the last event + 250, reports the first event, and touches no other path |
| `Debounce.ThreeWritesFireOnceAt450` | dedup.go:59-60 | writes at 0, 100 and 200 ms leave one timer, not due at 449 ms, due at 450 ms, reporting the first write |
| `Dedup.OperandsSplitAt` | dedup.go:39-50 | what the scan has collected after n positions, followed by the operands still ahead, is the whole operand list |
| `Dedup.OperandsComplete` | dedup.go:39-50 | after a full pass the scan has collected exactly the operands of the flag, in argument order |
| `Dedup.OperandsMembership` | dedup.go:39-50 | a token is an operand of a flag iff it directly follows an occurrence of that flag |
| `Dedup.FaultAt` | dedup.go:39-48 | only `-d` or `-r` can stop the scan, and a missing operand happens only at the last position; a `-r` with a following token never stops it, and a `-d` with a following token stops it exactly when the watcher refuses that token |
| `Dedup.FirstFault` | dedup.go:39-50 | the position returned is a fault with none before it, and no position faults when none is returned |
| `Dedup.ScanArgs` | dedup.go:22-50 | fewer than four arguments is the too-few-arguments error; the scan is rejected iff there are too few arguments or some position faults; the fault reported is the one at the first faulting position |
| `Dedup.ScanOutcome` | dedup.go:22-50 | fewer than four arguments is rejected; the scan succeeds iff no position faults; on success the paths are the `-d` operands, all accepted by the watcher, and the chain is the `-r` operands in order |
| `Dedup.TrailingFlagRejected` | dedup.go:39-48 | a trailing `-d` or `-r` always stops the scan |
| `Dedup.ScanAccepts` | dedup.go:22-50 | with at least four arguments, no trailing `-d` or `-r`, and every `-d` operand accepted by the watcher, the scan succeeds with the `-d` operands as paths and the `-r` operands as the chain |
| `Dedup.ScanDoesNotSkipOperands` | dedup.go:39-50 | in `-d . -r -d x` the chain is ["-d"] and both "." and "x" are watched |
| `Dedup.Engine.Valid` | dedup.go:111-124 | each entry is keyed by the path of the relevant event it captured, so two entries never capture events on the same path |
| `Dedup.Engine.constructor` | dedup.go:21 | the process starts with nothing watched, an empty chain and an empty table |
| `Dedup.Engine.Configure` | dedup.go:22-50 | the result is the scan's outcome; on success the watched paths and chain are the configuration; with too few arguments nothing is registered or recorded; a scan stopped at position k keeps what came before k |
| `Dedup.Engine.OnEvent` | dedup.go:100-128 | the new table is the event step applied to the old one, keyed by the captured event's path; nothing else changes |
| `Dedup.Engine.Fire` | dedup.go:67-88 | the firing reports the event captured at creation, launches the chain up to and including the first failure, and removes the path's entry whatever the outcome |
| `Cli.HasHelpToken` | main.go:52-58 | true iff some argument is exactly one of the four help tokens |
| `Cli.Dispatch` | main.go:48-62 | help iff os.Args holds only the program name or any later element is a help token; otherwise the arguments after the program name are forwarded unchanged |
| `Cli.HelpTokensExact` | main.go:54-56 | "help", "-h", "-help", "--help" ask for help; "--h", "-helpme", "HELP" and "" do not |
| `Cli.ExitCode` | main.go:30-40 | exit status 0 exactly for help, 1 for a usage error, 2 for a runtime panic, and no exit while watching |
| `Cli.Program` | main.go:48-62 | help exactly when main decides help; otherwise a successful scan ends in watching its configuration, a missing operand in an index panic carrying the last argument (at least four forwarded), and every other rejection in the usage error for that fault |
| `Cli.TrailingFlagPanics` | dedup.go:39-48 | with no help token and no earlier fault, a trailing `-d` or `-r` ends the program in an index-out-of-range panic with exit status 2, not a usage error |
| `Cli.ProgramOutcome` | main.go:48-62 | help wins and is the only way to exit 0; a usage error exits 1; without help, fewer than four forwarded arguments is the too-few-arguments error; a watching process runs the configuration scanned from os.Args minus the program name; with no help token, at least four forwarded arguments and no fault, the process watches the `-d` operands with the `-r` operands as its chain and never exits |
| `Cli.UnwatchablePathExits` | dedup.go:41-43 | with no help token and no earlier fault, a `-d` operand the watcher refuses ends the program in the usage error for that refused operand, with exit status 1 |

## Left out

- Watcher construction and its failure (dedup.go:28-32), the event and error channels, logging of watcher errors and the loop's end when a channel closes (dedup.go:91-103): these belong to the OS notification library. Registering a path is modelled only as membership in the input set `watchable`.
- Goroutines, the mutex and Go's timer internals (dedup.go:36, dedup.go:63, dedup.go:112-127): the model is sequential and a firing is one atomic step. So it does not capture a race in the code. A `Reset` on a timer whose callback is already running re-arms it, which can run the chain a second time with the stale event and delete a newer entry.
- A firing is only enabled once its deadline has passed; nothing forces it to happen then. In the model, a relevant event that arrives after the deadline but before the firing step postpones the firing and keeps the old captured event. In Go the callback has already started at the deadline, so this interleaving has no counterpart there. `Debounce.BurstCoalesces` proves the firing is enabled from the last event + 250 ms, not that it occurs at that moment.
- Creating a timer with an effectively infinite delay and stopping it (dedup.go:118-119): creation and the reset that follows are one step, so a timer always holds a real deadline.
- Child-process execution and printing its output (dedup.go:73-78): only each command's success or failure is modelled, as an input.
- `printTime`, the usage text, printing and `os.Exit` (main.go:11-46), and blocking forever (dedup.go:53-54): output and lifecycle plumbing. The end of the process is the `Cli.Termination` value and its exit status.
- The text of the usage error for a refused `-d` operand: dedup.go:43 formats the range variable `p`, which is always the flag `-d` there, not the refused path `args[k+1]`, so the printed message does not name the path. The model records the refused operand in `Unwatchable(path)` and only the exit status 1 is claimed.
- The notification kind is the set of operations it carries; fsnotify encodes it as a bit mask.
- Dedup.Engine.Fire: requires the path's deadline to have passed, because the timer runtime only starts the callback then; it also requires one outcome per command.
- Dedup.Engine.Configure: requires an empty chain and no watched paths, because `dedup` runs once, on the freshly initialised global chain.
- Cli.Dispatch: requires os.Args to hold at least the program name, which every conventional launch provides; with an empty os.Args main.go:53 panics slicing `os.Args[1:]`, which is not modelled.
