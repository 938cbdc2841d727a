# WEC Process Manager — a Dafny model

The WEC Process Manager is an interactive console program for a Windows CE device. It
prints a manual and then loops. Each turn it prompts with `"> "` and reads an entry. It
splits the entry on the single character `' '`. The lower-cased first token selects one
of five handlers, and the remaining tokens become that handler's arguments:

- `man` prints the manual again.
- `list` prints a header and then one tab-separated row per running process.
- `kill -n <path>` / `kill -p <pid>` kills every process whose full path, or whose
  decimal pid, equals the second argument. It prints `Killed: pid | path` for each one.
- `start <path>` launches a program and prints `Started: <path>`.
- `quit` asks for a `Y`/`N` confirmation until it gets one, and ends the loop on `Y`.
- Any other token prints `Invalid command!`.

The repository holds the program twice. `src/WECProcessManager/Program.cs` is the newer,
documented copy and `WECProcessManager/Program.cs` the older one. Their logic is the same;
apart from namespace, `using` lines and comments, only the manual text differs. The
model follows the newer copy's line numbers; the older copy's line ranges are mapped below.

## How the model sees the program

- **Console.** The input is a sequence of lines. `Console.ReadLine` past the end gives
  null, modelled as `None`. The output is a trace of `Effect`s: `Write`,
  `WriteLine`, `KillProcess(pid)` for `ProcessInfo.Kill`, and `StartProcess(path)` for
  `Process.Start`.
- **Platform.** `ProcessCE.GetProcesses` is a function `snapshots: nat -> seq<ProcessRecord>`.
  The n-th call in a session returns `snapshots(n)`. `list` queries once. `kill` queries
  once, before it looks at its arguments.
- **Faults.** The program catches no exception. An `IndexOutOfRange` from reading a missing
  argument, or a `NullReference` from `ToLower` on the null that `ReadLine` returns, ends
  the session. The model ends it as `Crashed(fault)` with the effects made so far.
- **Form.** Each handler is a specification function plus a method that mirrors the
  source's loop, proved equal to it:
  - `ListProcessesCommand` and `KillEach` are the `foreach` loops.
  - `QuitCommand` is the `do … while`.
  - `TakeTurn` is one pass of `Main`'s `while (true)`, and `RunSession` is the whole
    loop.

Modules:

| module | file | contents |
|---|---|---|
| `Text` | text.dfy | ASCII `ToLower`, `Split(' ')`, the pid's `ToString()` and its inverse |
| `Seqs` | seqs.dfy | filter and flat-map over a snapshot, with their lemmas |
| `Console` | console.dfy | process records, effects, faults, `ReadLine` |
| `Entry` | entry.dfy | entry splitting and the case-insensitive command switch |
| `Listing` | list.dfy | `ListProcessesCommand` |
| `Killing` | kill.dfy | `KillProcessCommand` |
| `Confirmation` | quit.dfy | `QuitCommand` |
| `Shell` | shell.dfy | `Main`, `ManualCommand`, `StartCommand`, `UnknownCommand` |
| `Manual` | manual.dfy | the manual text of both copies |

### Behaviour of the program worth noting

- The entry is split on the single character `' '`. Two adjacent spaces give an empty
  argument, and a tab is part of a token.
- At end of input, `Main` keeps looping: `string.IsNullOrEmpty(null)` holds, so it prompts
  again on every pass. The model stops the session with ending `InputEnded` after the
  first of those prompts.
- `QuitCommand` at end of input calls `ToLower` on null and faults (`NullReference`),
  which ends the program.
- `start` without an argument reads `arguments[0]` and faults (`IndexOutOfRange`) before
  printing anything.
- `kill` with no argument faults on `arguments[0]`. With only a valid flag it reads
  `arguments[1]` inside the loop, so it faults only when the snapshot has a process to
  compare with; an empty snapshot completes without output.
- No exception is caught anywhere, so a fault ends the program.

### The older copy

`WECProcessManager/Program.cs` has the same members at these lines:

- `Main`: 148-188
- `ManualCommand`: 27-30
- `ListProcessesCommand`: 36-51
- `KillProcessCommand`: 57-86
- `StartCommand`: 95-101
- `QuitCommand`: 108-130
- `UnknownCommand`: 137-140

Its manual is spelled out in full (`Manual.LegacyManual`). The newer copy builds its manual
around a title from a constants class (`Manual.ManualLines(title)`).

## Model

| member | source | states |
|---|---|---|
| Text.Lower | src/WECProcessManager/Program.cs:161 | `ToLower` keeps the length, leaves no upper-case ASCII letter, and changes each character at most in case |
| Text.LowerCaseInsensitive | src/WECProcessManager/Program.cs:161 | two strings lower-case to the same string exactly when they differ only in the case of ASCII letters |
| Text.Split | src/WECProcessManager/Program.cs:155 | `Split(' ')` gives one token more than there are separators, no token holds the separator, and joining the tokens with the separator gives back the line |
| Text.SplitJoin | src/WECProcessManager/Program.cs:155 | joining separator-free tokens and splitting again gives the same tokens |
| Text.DecimalString | src/WECProcessManager/Program.cs:79 | `Pid.ToString()` starts with '-' exactly for a negative pid, followed by a non-empty run of digits that starts with '0' only for the pid 0 |
| Text.DecimalRoundTrip | src/WECProcessManager/Program.cs:79 | reading back `Pid.ToString()` gives the pid, negative pids included |
| Text.DecimalInjective | src/WECProcessManager/Program.cs:79 | two pids have equal decimal strings exactly when they are equal |
| Text.DecimalLongerThanSeven | src/WECProcessManager/Program.cs:46 | `Pid.ToString().Length > 7` exactly when the pid is at least 10000000 or at most -1000000 |
| Entry.CommandOf | src/WECProcessManager/Program.cs:161-181 | the handler is the unknown-command fallback exactly when the lower-cased token is none of the five keywords; otherwise it is the one whose keyword that is |
| Entry.CommandOfCasing | src/WECProcessManager/Program.cs:161-177 | a token selects a handler exactly when it is that handler's keyword in some mixture of cases |
| Entry.CommandOfSameUpToCase | src/WECProcessManager/Program.cs:161 | tokens that differ only in case select the same handler |
| Entry.Parse | src/WECProcessManager/Program.cs:153-157 | an entry is dispatched exactly when it is not empty; its command token and arguments, joined by single spaces, give back the line; no token holds a space; there is one argument per space |
| Entry.ParseJoin | src/WECProcessManager/Program.cs:155-157 | conversely, a command and arguments without spaces, joined by single spaces, parse back to themselves |
| Listing.ListShape | src/WECProcessManager/Program.cs:42-54 | the header comes first, then exactly one row per process in snapshot order; the command only prints lines |
| Listing.Gap | src/WECProcessManager/Program.cs:46-53 | the gap after the pid is one tab exactly for pids of 10000000 or more or -1000000 or less, and two tabs otherwise |
| Listing.Row | src/WECProcessManager/Program.cs:46-53 | a row starts with the pid's decimal string and ends with the full path; its length is that of the pid, the gap, the thread count, two tabs and the path |
| Listing.RowFields | src/WECProcessManager/Program.cs:48-52 | split at its tabs, a row gives the pid, an empty field only for the two-tab gap, the thread count, an empty field, then the path's own tab-separated pieces |
| Listing.RowPid | src/WECProcessManager/Program.cs:48-52 | the first tab-separated field of a row reads back as the row's pid |
| Listing.ListProcessesCommand | src/WECProcessManager/Program.cs:40-55 | the `foreach` loop prints exactly the header and rows of `ListSpec` for the snapshot |
| Killing.Select | src/WECProcessManager/Program.cs:66-84 | a process is selected exactly when it is in the snapshot and matches the key |
| Killing.SelectCounts | src/WECProcessManager/Program.cs:66-84 | the selection holds each matching process as often as the snapshot does |
| Killing.KillMatching | src/WECProcessManager/Program.cs:66-84 | a valid flag faults exactly when the snapshot is not empty and the second argument is missing, before any kill; an empty snapshot does nothing |
| Killing.KillEffectsAt | src/WECProcessManager/Program.cs:70-71 | each victim gives exactly one kill followed by its `Killed: pid \| path` line, victims in snapshot order |
| Killing.KillEffectsStep | src/WECProcessManager/Program.cs:66-73 | one more process of the snapshot adds its kill and line exactly when it matches |
| Killing.KillSpec | src/WECProcessManager/Program.cs:61-90 | the command faults exactly when it has no argument, or only a valid flag and a non-empty snapshot; a fault is an index fault and comes before any kill |
| Killing.KillByPathKillsMatches | src/WECProcessManager/Program.cs:64-74 | `kill -n X` completes and kills exactly the processes whose path is X, each once per occurrence, in snapshot order, each followed by its line |
| Killing.KillByPidKillsThatPid | src/WECProcessManager/Program.cs:75-85 | `kill -p` with the decimal string of q (flag in any case) kills exactly the processes whose pid is q |
| Killing.KillByPidNonCanonical | src/WECProcessManager/Program.cs:79 | `kill -p X` where X is not how any integer prints kills nothing and prints nothing |
| Killing.UniquePidKilledOnce | src/WECProcessManager/Program.cs:75-85 | when one process has a given pid, `kill -p` with that pid kills it once and prints one line |
| Killing.SelectUniquePid | src/WECProcessManager/Program.cs:79 | a pid held by one process of the snapshot selects exactly that process |
| Killing.KillInvalidFlag | src/WECProcessManager/Program.cs:86-89 | any other flag kills nothing and prints exactly `Invalid arguments! Please try again.` |
| Killing.KillNeverStarts | src/WECProcessManager/Program.cs:61-90 | the kill command never starts a process |
| Killing.KillEffectsKinds | src/WECProcessManager/Program.cs:70-71 | the kill loop only kills and prints lines |
| Killing.KillProcessCommand | src/WECProcessManager/Program.cs:61-90 | the method's outcome is `KillSpec` of the snapshot and arguments |
| Killing.KillEach | src/WECProcessManager/Program.cs:66-84 | each `foreach` loop kills and reports exactly the matching processes in order, and faults on a missing second argument only at its first comparison |
| Confirmation.Dialog | src/WECProcessManager/Program.cs:116-129 | an answer is the line just before the returned position, it is `y` or `n` in either case, and it confirms exactly when it is `y` |
| Confirmation.QuitDecidedByFirstAnswer | src/WECProcessManager/Program.cs:114-129 | the first `y`/`n` line decides; the dialog consumes the lines up to it and prints one invalid-input prompt per earlier line |
| Confirmation.QuitWithoutAnswer | src/WECProcessManager/Program.cs:115-128 | without an answer left, the dialog prints one invalid-input prompt per remaining line and then faults |
| Confirmation.QuitOnlyPrompts | src/WECProcessManager/Program.cs:114-125 | the dialog only writes prompts |
| Confirmation.QuitExamples | src/WECProcessManager/Program.cs:118-120 | "maybe" then "n" declines after one reprompt; "Y" confirms at once |
| Confirmation.QuitSpec | src/WECProcessManager/Program.cs:110-132 | the command first writes the question; an answer is the line before the returned position and confirms exactly when it is `y` in either case; one prompt is written per line read, plus one more when the input runs out |
| Confirmation.QuitCommand | src/WECProcessManager/Program.cs:110-132 | the `do … while` loop returns exactly `QuitSpec` of the input from its position |
| Shell.Execute | src/WECProcessManager/Program.cs:161-183 | only a confirmed quit ends the session normally; an unknown command prints one complaint and reads nothing; only `kill` kills; only `start` starts; a fault never reads as end of input |
| Shell.TurnAt | src/WECProcessManager/Program.cs:151-184 | a turn that goes on consumes at least one line; a turn ends for lack of input exactly when the input is exhausted |
| Shell.Run | src/WECProcessManager/Program.cs:146-153 | every session prints the manual, then the first prompt |
| Shell.RunFrom | src/WECProcessManager/Program.cs:151-184 | every pass of the loop starts with the prompt; a session that ran out of input ends on a prompt |
| Shell.LegacySessionShowsBox | WECProcessManager/Program.cs:148-150 | a session of the older copy opens with its manual, whose lines are all 56 characters framed by `*` |
| Shell.EmptyEntrySkipped | src/WECProcessManager/Program.cs:152-153 | an empty line runs no handler; the loop prompts again at the next line |
| Shell.ManRepeatsManual | src/WECProcessManager/Program.cs:163-165 | `man` prints the manual and nothing else |
| Shell.StartLaunchesOnce | src/WECProcessManager/Program.cs:97-103 | `start p` launches p once and prints `Started: p`; without an argument it faults before launching |
| Shell.NoQuitEntryNeverQuits | src/WECProcessManager/Program.cs:175-183 | without a `quit` entry the session never ends with a confirmed quit |
| Shell.NoKillEntryNoKills | src/WECProcessManager/Program.cs:169-170 | without a `kill` entry the session kills no process |
| Shell.Dispatch | src/WECProcessManager/Program.cs:161-181 | the `switch` returns exactly `Execute` of the entry |
| Shell.EntryTurn | src/WECProcessManager/Program.cs:155-181 | splitting a non-empty entry and running the `switch` returns exactly `TurnAt` |
| Shell.TakeTurn | src/WECProcessManager/Program.cs:151-183 | one pass of the loop returns exactly `TurnAt` |
| Shell.RunSession | src/WECProcessManager/Program.cs:146-186 | the loop produces exactly `Run` of the manual, input lines and platform |
| Manual.ManualBoxedIff | src/WECProcessManager/Program.cs:16-25 | the manual's lines are all 56 characters framed by `*` exactly when the title is 26 characters long |
| Manual.LegacyBoxed | WECProcessManager/Program.cs:10-19 | the older manual's lines are all 56 characters framed by `*` |

## Left out

- Console I/O. The input is a sequence of lines and the output a trace of effects.
- `Terranova.API` is not part of this model. Snapshots are a parameter and `ProcessInfo.Kill`
  is a recorded effect. A failing kill, such as permission denied or a process already
  gone, is not modelled.
- `Process.Start` is a recorded effect. A start that fails (a bad path) is not modelled.
- `Constants` in `WECProcessManager.resources` is not part of this model. The newer copy's
  title is a parameter of `Manual.ManualLines`.
- `Char.ToLower` and `String.ToLower` are modelled on ASCII letters only. Culture-specific
  and non-ASCII case mappings are left out.
- `ProcessInfo.Pid` and `ThreadCount` are unbounded integers. `ToString` renders them in
  the invariant culture.
- Shell.RunSession: stops with `InputEnded` at end of input, where the program prompts
  forever.
- The `return` after the `do … while` in `QuitCommand`
  (src/WECProcessManager/Program.cs:131) cannot be reached. The loop condition is always
  true when tested. `Confirmation.QuitCommand` has no such return.
- The initial value `"start"` of `decision` in `QuitCommand` is overwritten before use.
